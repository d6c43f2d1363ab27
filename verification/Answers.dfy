/** What each side answers, read off the tables and the links alone: who is reset, which frames go
    out, and that the splitter's clients never see a gap. */
module Answers {
  import opened Wire
  import opened Traffic
  import opened Exchange
  import opened Handlers
  import N = NoSilentLoss
  import RC = ReassemblerCost
  import Re = Reassembler
  import Reorder
  import R = Receiver

  // ----- the splitter's answer to a frame

  /** `cid` is reset: out of the table, in TIME_WAIT, one RST sent toward the reassembler. */
  ghost predicate ClientReset(x: World, x': World, cid: u32, at: nat) {
    && cid !in x'.sp.conns && cid in x'.sp.timeWait
    && x'.sent == x.sent + 1 && Posted(x.toRe, x'.toRe, Rst(cid), at)
  }

  /** Nothing is sent, and `cid` is in the table as `c` says. */
  ghost predicate ClientIs(x: World, x': World, cid: u32, c: Client) {
    && cid in x'.sp.conns && x'.sp.conns[cid] == c
    && x'.sent == x.sent && x'.toRe == x.toRe && x'.sp.timeWait == x.sp.timeWait
  }

  ghost predicate OthersSame(x: World, x': World, cid: u32) {
    && (forall c :: c != cid ==> (c in x'.sp.conns <==> c in x.sp.conns))
    && (forall c :: c != cid && c in x.sp.conns ==> x'.sp.conns[c] == x.sp.conns[c])
  }

  /** DATA for a client resets it exactly when it overflows the window or the client's channel refuses
      a chunk it makes ready; otherwise what it makes ready follows on the client's stream.  DATA for an
      unknown client and every RST are answered with an RST; a FIN is recorded with its number. */
  ghost predicate Answered(x: World, x': World, f: Packet, accepts: nat -> bool, at: nat) {
    match f
    case Data(cid, n, payload) =>
      if cid !in x.sp.conns then
        x'.sp == x.sp && x'.sent == x.sent + 1 && Posted(x.toRe, x'.toRe, Rst(cid), at)
      else
        var c := x.sp.conns[cid];
        var (w, r) := Reorder.Pushed(c.window, n, payload);
        if Breaks(c.window, n, payload, accepts) then ClientReset(x, x', cid, at)
        else ClientIs(x, x', cid, c.(window := w, output := c.output + r.ready))
    case Fin(cid, n) =>
      if cid in x.sp.conns then ClientIs(x, x', cid, x.sp.conns[cid].(finReceived := true, finSeq := n))
      else x'.sp == x.sp && x'.toRe == x.toRe && x'.sent == x.sent
    case Rst(cid) => ClientReset(x, x', cid, at)
    case Syn(_, _) => x'.sp == x.sp && x'.toRe == x.toRe && x'.sent == x.sent
  }

  lemma InboundLaw(x: World, f: Packet, accepts: nat -> bool, at: nat)
    ensures Answered(x, Inbound(x, f, accepts, at), f, accepts, at)
    ensures OthersSame(x, Inbound(x, f, accepts, at), f.cid)
    ensures Inbound(x, f, accepts, at).toSp == x.toSp
  {
    hide R.OnData, Breaks, Post, Posted, Reorder.Pushed;
    PostLaw(x.toRe, Rst(f.cid), at);
    if f.Data? && f.cid in x.sp.conns {
      var c := x.sp.conns[f.cid];
      BreaksIsReset(R.Splitter, c.window, c.output, f.n, f.payload, accepts);
    }
  }

  /** The splitter's answer to the frame at the head of a link, in every run. */
  lemma SplitterAnswers(worlds: seq<World>, steps: seq<Step>, k: nat, i: nat, accepts: nat -> bool, at: nat)
    requires IsRun(worlds, steps) && k < |steps| && steps[k] == SpHandles(i, accepts, at)
    ensures var x, x' := worlds[k], worlds[k + 1];
            && i < |x.toSp| && x.toSp[i].frames != []
            && var f := x.toSp[i].frames[0];
               && Answered(x, x', f, accepts, at) && OthersSame(x, x', f.cid)
               && InTransit(x'.toSp) + multiset{f} == InTransit(x.toSp)
  {
    hide Inbound, Answered, Taken;
    assert Next(worlds[k], steps[k], worlds[k + 1]);
    var x := worlds[k];
    var f, y := x.toSp[i].frames[0], x.(toSp := Taken(x.toSp, i));
    TakenLaw(x.toSp, i);
    InboundLaw(y, f, accepts, at);
    AnsweredHead(x, y, worlds[k + 1], f, accepts, at);
  }

  lemma AnsweredHead(x: World, y: World, x': World, f: Packet, accepts: nat -> bool, at: nat)
    requires y == x.(toSp := y.toSp) && Answered(y, x', f, accepts, at)
    ensures Answered(x, x', f, accepts, at)
  {
    hide Breaks, Posted, Reorder.Pushed;
  }

  // ----- no client sees a gap

  /** A client's connection, seen as the reassembler sees one of its own. */
  function AsConn(c: Client): Re.Conn {
    Re.Conn(c.window, c.output, c.finReceived, c.finSeq, 0, false)
  }

  /** The client's stream is exactly what its window has let through, in order. */
  ghost predicate ClientOk(c: Client) {
    N.ConnOk(AsConn(c))
  }

  ghost predicate ClientsOk(x: World) {
    forall cid :: cid in x.sp.conns ==> ClientOk(x.sp.conns[cid])
  }

  /** The numbers of the DATA frames the splitter handles stay below the u64 wrap. */
  ghost predicate BelowWrap(worlds: seq<World>, steps: seq<Step>)
    requires |worlds| == |steps| + 1
  {
    forall k :: 0 <= k < |steps| && steps[k].SpHandles? ==> HeadBelowWrap(worlds[k], steps[k].i)
  }

  predicate HeadBelowWrap(x: World, i: nat) {
    i < |x.toSp| && x.toSp[i].frames != [] && x.toSp[i].frames[0].Data? ==> x.toSp[i].frames[0].n < U64_MAX
  }

  lemma ReceiveOk(c: Client, n: u64, payload: Bytes, accepts: nat -> bool)
    requires ClientOk(c) && n < U64_MAX && !Breaks(c.window, n, payload, accepts)
    ensures var (w, r) := Reorder.Pushed(c.window, n, payload);
            ClientOk(c.(window := w, output := c.output + r.ready))
  {
    hide N.ConnOk, Reorder.Pushed, R.OnData, Breaks;
    BreaksIsReset(R.Reassembler, c.window, c.output, n, payload, accepts);
    N.ReceiveKeeps(AsConn(c), n, payload, accepts);
  }

  lemma FlagOk(c: Client, d: Client)
    requires ClientOk(c) && d.window == c.window && d.output == c.output
    ensures ClientOk(d)
  {
    assert N.Taken(AsConn(d)) == N.Taken(AsConn(c));
  }

  lemma FreshOk(limit: nat)
    ensures ClientOk(Client(Reorder.Fresh(limit), [], false, 0))
  {
    assert N.Taken(AsConn(Client(Reorder.Fresh(limit), [], false, 0))) == map[];
  }

  lemma AnswerOk(x: World, x': World, f: Packet, accepts: nat -> bool, at: nat)
    requires ClientsOk(x) && Answered(x, x', f, accepts, at) && OthersSame(x, x', f.cid)
    requires f.Data? ==> f.n < U64_MAX
    ensures ClientsOk(x')
  {
    hide ClientOk, Breaks, Posted, Reorder.Pushed;
    if f.cid in x.sp.conns {
      var c := x.sp.conns[f.cid];
      if f.Data? && !Breaks(c.window, f.n, f.payload, accepts) {
        ReceiveOk(c, f.n, f.payload, accepts);
      } else if f.Fin? {
        FlagOk(c, c.(finReceived := true, finSeq := f.n));
      }
    }
  }

  lemma ClientStepOk(x: World, st: Step, x': World)
    requires ClientsOk(x) && Next(x, st, x') && (st.SpHandles? ==> HeadBelowWrap(x, st.i))
    ensures ClientsOk(x')
  {
    hide ClientOk, Answered, Inbound, ReStep, Post, Taken, Cut;
    if st.SpHandles? {
      var y, f := x.(toSp := Taken(x.toSp, st.i)), x.toSp[st.i].frames[0];
      InboundLaw(y, f, st.accepts, st.at);
      AnswerOk(y, x', f, st.accepts, st.at);
    } else if st.ReHandles? || st.ReActs? {
      ReKeepsSplitter(x, st, x');
    } else {
      FreshOk(x.sp.limit);
    }
  }

  lemma ReKeepsSplitter(x: World, st: Step, x': World)
    requires Next(x, st, x') && (st.ReHandles? || st.ReActs?)
    ensures x'.sp == x.sp
  {
    hide Re.Next, Sends;
  }

  lemma {:induction false} RunClientsOk(worlds: seq<World>, steps: seq<Step>, k: nat)
    requires IsRun(worlds, steps) && worlds[0].sp.conns == map[] && BelowWrap(worlds, steps) && k < |worlds|
    ensures ClientsOk(worlds[k])
  {
    hide Next, ClientOk, HeadBelowWrap;
    if k > 0 {
      RunClientsOk(worlds, steps, k - 1);
      assert Next(worlds[k - 1], steps[k - 1], worlds[k]);
      ClientStepOk(worlds[k - 1], steps[k - 1], worlds[k]);
    }
  }

  /** In every run of both sides, each client still in the splitter's table has been handed the chunks
      its window let through, one for each number below `expected`, none left out; what is buffered
      lies beyond. */
  lemma ClientsSeeNoGap(worlds: seq<World>, steps: seq<Step>, k: nat, cid: u32)
    requires IsRun(worlds, steps) && worlds[0].sp.conns == map[] && BelowWrap(worlds, steps)
    requires k < |worlds| && cid in worlds[k].sp.conns
    ensures var c := worlds[k].sp.conns[cid];
            && |c.output| + 1 == c.window.expected
            && forall n :: n in c.window.pending ==> n > c.window.expected
  {
    hide Next;
    RunClientsOk(worlds, steps, k);
  }

  // ----- the other senders

  /** One frame sent toward the reassembler, and no client touched. */
  ghost predicate SentToRe(x: World, x': World, f: Packet, at: nat) {
    x'.sent == x.sent + 1 && Posted(x.toRe, x'.toRe, f, at) && x'.sp.conns == x.sp.conns
  }

  ghost predicate SentToSp(x: World, x': World, f: Packet, at: nat) {
    x'.sent == x.sent + 1 && Posted(x.toSp, x'.toSp, f, at) && x'.sp == x.sp && x'.toRe == x.toRe
  }

  /** A client's SYN goes out first; the client is in the table, with a fresh window and a read loop,
      exactly when a link took it. */
  ghost predicate Opened(x: World, x': World, cid: u32, valid: bool, at: nat) {
    && x'.sent == x.sent + 1 && Posted(x.toRe, x'.toRe, Syn(cid, valid), at)
    && OthersSame(x, x', cid)
    && (cid in x'.sp.conns <==> Live(x.toRe, at))
    && (cid in x'.sp.conns ==>
          && x'.sp.conns[cid] == Client(Reorder.Fresh(x.sp.limit), [], false, 0)
          && x'.sp.loops == x.sp.loops + multiset{cid})
  }

  lemma Disjointed(x: World, cid: u32)
    ensures OthersSame(x, Leave(x, cid), cid) && cid !in Leave(x, cid).sp.conns && cid in Leave(x, cid).sp.timeWait
  {
  }

  /** What every step of the splitter and its clients puts on the links. */
  lemma ClientStepLaw(worlds: seq<World>, steps: seq<Step>, k: nat)
    requires IsRun(worlds, steps) && k < |steps|
    ensures var x, x' := worlds[k], worlds[k + 1];
            match steps[k]
            case ClientOpens(cid, valid, at) => Opened(x, x', cid, valid, at)
            case ClientSends(cid, n, payload, at) => SentToRe(x, x', Data(cid, n, payload), at)
            case ClientEnds(cid, WithFin(n), at) => SentToRe(x, x', Fin(cid, n), at)
            case ClientEnds(cid, WithRst, at) => SentToRe(x, x', Rst(cid), at)
            case ClientEnds(cid, WithNothing, at) => x'.sent == x.sent && x'.toRe == x.toRe
            case ClientSwept(cid, at) => ClientReset(x, x', cid, at) && OthersSame(x, x', cid)
            case ClientRemoved(cid) =>
              cid !in x'.sp.conns && cid in x'.sp.timeWait && OthersSame(x, x', cid) && x'.sent == x.sent
            case TargetSends(cid, n, payload, at) => SentToSp(x, x', Data(cid, n, payload), at)
            case LeftoverEnds(cid, true, at) => SentToSp(x, x', Rst(cid), at)
            case _ => true
  {
    hide Post, Posted, Leave, OthersSame;
    assert Next(worlds[k], steps[k], worlds[k + 1]);
    hide ReStep, Inbound, Taken, Cut;
    var x, st := worlds[k], steps[k];
    match st
    case ClientOpens(cid, valid, at) => OpenLaw(x, cid, valid, at);
    case ClientSends(cid, n, payload, at) => PostLaw(x.toRe, Data(cid, n, payload), at);
    case ClientEnds(cid, how, at) =>
      PostLaw(x.toRe, if how.WithFin? then Fin(cid, how.n) else Rst(cid), at);
    case ClientSwept(cid, at) =>
      Disjointed(x, cid);
      SweptLaw(x, cid, at);
    case ClientRemoved(cid) =>
      Disjointed(x, cid);
      LeaveSends(x, cid);
    case TargetSends(cid, n, payload, at) => PostLaw(x.toSp, Data(cid, n, payload), at);
    case LeftoverEnds(cid, resets, at) => PostLaw(x.toSp, Rst(cid), at);
    case _ =>
  }

  lemma LeaveSends(x: World, cid: u32)
    ensures Leave(x, cid).sent == x.sent && Leave(x, cid).toRe == x.toRe
  {
  }

  lemma SweptLaw(x: World, cid: u32, at: nat)
    ensures ClientReset(x, ResetConn(x, cid, at), cid, at) && OthersSame(x, ResetConn(x, cid, at), cid)
    ensures ResetConn(x, cid, at).toSp == x.toSp
  {
    hide Post, Posted;
    PostLaw(x.toRe, Rst(cid), at);
  }

  lemma OpenLaw(x: World, cid: u32, valid: bool, at: nat)
    requires x.opens > 0 && cid !in x.sp.conns
    ensures Opened(x, Open(x, cid, valid, at), cid, valid, at)
  {
    hide Post, Posted;
    PostLaw(x.toRe, Syn(cid, valid), at);
  }

  // ----- dead links

  /** When a link dies, every frame it carried is still on the wire, is the one whose write failed, or is
      reported lost, in order; and its owner sends nothing on it any more. */
  lemma LinkDeathLaw(worlds: seq<World>, steps: seq<Step>, k: nat, i: nat, written: nat, failed: nat)
    requires IsRun(worlds, steps) && k < |steps|
    ensures var x, x' := worlds[k], worlds[k + 1];
            steps[k] == SpLinkDies(i, written, failed) ==>
              && i < |x.toRe| && failed <= |x.toRe[i].frames| && !Live(x'.toRe, i)
              && x'.lostSp == x.lostSp + x.toRe[i].frames[failed..]
              && InTransit(x'.toRe) + multiset(x.toRe[i].frames[written..]) == InTransit(x.toRe)
              && written <= failed <= written + 1
    ensures var x, x' := worlds[k], worlds[k + 1];
            steps[k] == ReLinkDies(i, written, failed) ==>
              && i < |x.toSp| && failed <= |x.toSp[i].frames| && !Live(x'.toSp, i)
              && x'.lostRe == x.lostRe + x.toSp[i].frames[failed..]
              && InTransit(x'.toSp) + multiset(x.toSp[i].frames[written..]) == InTransit(x.toSp)
              && written <= failed <= written + 1
  {
    hide InTransit;
    assert Next(worlds[k], steps[k], worlds[k + 1]);
    hide ReStep, Inbound;
    if steps[k] == SpLinkDies(i, written, failed) {
      CutLaw(worlds[k].toRe, i, written);
    } else if steps[k] == ReLinkDies(i, written, failed) {
      CutLaw(worlds[k].toSp, i, written);
    }
  }

  /** Recovery sends every lost control frame again; a lost DATA frame resets its client if the splitter
      lost it, and is answered with a reset toward the splitter if the reassembler did. */
  lemma RecoveryLaw(worlds: seq<World>, steps: seq<Step>, k: nat, at: nat)
    requires IsRun(worlds, steps) && k < |steps|
    ensures var x, x' := worlds[k], worlds[k + 1];
            steps[k] == SpRecovers(at) ==>
              && x.lostSp != [] && x'.lostSp == x.lostSp[1..]
              && var f := x.lostSp[0];
                 if !f.Data? then SentToRe(x, x', f, at)
                 else if f.cid in x.sp.conns then ClientReset(x, x', f.cid, at) && OthersSame(x, x', f.cid)
                 else x'.sp == x.sp && x'.sent == x.sent
    ensures var x, x' := worlds[k], worlds[k + 1];
            steps[k] == ReRecovers(at) ==>
              && x.lostRe != [] && x'.lostRe == x.lostRe[1..]
              && var f := x.lostRe[0]; SentToSp(x, x', if f.Data? then Rst(f.cid) else f, at)
  {
    hide Post, Posted, OthersSame;
    assert Next(worlds[k], steps[k], worlds[k + 1]);
    hide ReStep, Inbound, Taken, Cut;
    var x := worlds[k];
    if steps[k] == SpRecovers(at) {
      var f, y := x.lostSp[0], x.(lostSp := x.lostSp[1..]);
      PostLaw(x.toRe, f, at);
      SweptLaw(y, f.cid, at);
      SameTable(x, y, ResetConn(y, f.cid, at), f.cid);
    } else if steps[k] == ReRecovers(at) {
      var f := x.lostRe[0];
      PostLaw(x.toSp, if f.Data? then Rst(f.cid) else f, at);
    }
  }

  lemma SameTable(x: World, y: World, z: World, cid: u32)
    requires y.sp == x.sp && OthersSame(y, z, cid)
    ensures OthersSame(x, z, cid)
  {
  }

  // ----- what the reassembler sends

  /** The FIN that ends the egress stream, if this step sends one. */
  function FinOf(e: Re.Event, fin: u64): seq<Packet> {
    if e.EgressEof? && e.finSent then [Fin(e.cid, fin)] else []
  }

  /** The resets decided on in the step are on their way to the splitter, the FIN of an ended egress
      stream too, and nothing else. */
  ghost predicate AllSent(x: World, x': World, e: Re.Event, fin: u64) {
    var cids := Sent(x.re, x'.re);
    && InTransit(x'.toSp) == InTransit(x.toSp) + multiset(FinOf(e, fin)) + multiset(Resets(cids))
    && x'.sent == x.sent + |FinOf(e, fin)| + |cids|
  }

  lemma {:induction false} ResetsAreRsts(cids: seq<u32>, c: u32)
    ensures multiset(Resets(cids))[Rst(c)] == multiset(cids)[c]
  {
    if cids != [] {
      var n := |cids| - 1;
      ResetsAreRsts(cids[..n], c);
      assert cids == cids[..n] + [cids[n]];
      assert Resets(cids) == Resets(cids[..n]) + [Rst(cids[n])];
    }
  }

  lemma ReStepSends(x: World, e: Re.Event, fin: u64, route: nat -> nat, x': World)
    requires ReStep(x, e, fin, route, x') && forall j: nat :: Live(x.toSp, route(j))
    ensures AllSent(x, x', e, fin)
  {
    hide InTransit, PostAll, Re.Next, FinOf, Resets, RC.Abandons;
    var out, cids := Exchange.Sends(x.re, e, fin, x'.re), Sent(x.re, x'.re);
    SendsAre(x.re, e, fin, x'.re);
    hide Exchange.Sends;
    Appended(FinOf(e, fin), Resets(cids));
    PostAllLaw(x.toSp, out, route);
  }

  lemma SendsAre(s: Re.State, e: Re.Event, fin: u64, s': Re.State)
    ensures Exchange.Sends(s, e, fin, s') == FinOf(e, fin) + Resets(Sent(s, s'))
    ensures |Resets(Sent(s, s'))| == |Sent(s, s')|
  {
  }

  /** What the reassembler does by itself reaches the splitter in full, if its frames find live
      links. */
  lemma ReassemblerActs(worlds: seq<World>, steps: seq<Step>, k: nat, e: Re.Event, fin: u64, route: nat -> nat)
    requires IsRun(worlds, steps) && k < |steps| && steps[k] == ReActs(e, fin, route)
    requires forall j: nat :: Live(worlds[k].toSp, route(j))
    ensures Re.Next(worlds[k].re, e, worlds[k + 1].re) && AllSent(worlds[k], worlds[k + 1], e, fin)
  {
    assert Next(worlds[k], steps[k], worlds[k + 1]);
    hide AllSent, Re.Next, Exchange.Sends, RC.Abandons, PostAll;
    ReStepSends(worlds[k], e, fin, route, worlds[k + 1]);
  }

  /** So does its answer to the frame at the head of a link. */
  lemma ReassemblerAnswers(worlds: seq<World>, steps: seq<Step>, k: nat, i: nat, e: Re.Event, route: nat -> nat)
    requires IsRun(worlds, steps) && k < |steps| && steps[k] == ReHandles(i, e, route)
    requires forall j: nat :: Live(worlds[k].toSp, route(j))
    ensures var x, x' := worlds[k], worlds[k + 1];
            && Re.Next(x.re, e, x'.re) && AllSent(x, x', e, 0)
            && i < |x.toRe| && x.toRe[i].frames != [] && Carries(e, x.toRe[i].frames[0])
            && InTransit(x'.toRe) + multiset{x.toRe[i].frames[0]} == InTransit(x.toRe)
  {
    assert Next(worlds[k], steps[k], worlds[k + 1]);
    hide InTransit, Re.Next, Exchange.Sends, RC.Abandons, PostAll, Taken, Sent, Resets, FinOf, Carries;
    var x := worlds[k];
    TakenLaw(x.toRe, i);
    ReStepSends(x.(toRe := Taken(x.toRe, i)), e, 0, route, worlds[k + 1]);
  }
}
