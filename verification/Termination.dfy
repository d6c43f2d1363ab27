/** With finite input and no new links the exchange of frames ends: every step but the silent
    ones uses up potential, and every frame sent is paid for out of it. */
module Termination {
  import opened Wire
  import opened Traffic
  import opened Exchange
  import opened ReassemblerCost
  import R = Receiver
  import Re = Reassembler

  /** A step that pays for what it sends out of `Work`, with at least one unit used up. */
  ghost predicate Works(x: World, x': World) {
    && x'.sent >= x.sent
    && Work(x') + (x'.sent - x.sent) <= Work(x)
    && Work(x') < Work(x)
    && LiveLinks(x') == LiveLinks(x)
    && x'.lostSp == x.lostSp && x'.lostRe == x.lostRe
  }

  /** A step that pays for what it sends out of the potential. */
  ghost predicate Pays(x: World, x': World) {
    && x'.sent >= x.sent
    && Potential(x') + (x'.sent - x.sent) <= Potential(x)
    && Potential(x') < Potential(x)
  }

  lemma AmortisedDrop(w: nat, w': nat, links: nat, lost: nat)
    requires w' <= w
    ensures Amortised(w', links, lost) + (w - w') <= Amortised(w, links, lost)
  {
    var d := w - w';
    assert w * (links + 2) == w' * (links + 2) + d * (links + 2);
    assert d * (links + 2) >= d;
  }

  lemma AmortisedLink(w: nat, w': nat, links: nat, lost: nat, moved: nat)
    requires links > 0 && w' <= w && moved <= w
    ensures Amortised(w', links - 1, lost + moved) < Amortised(w, links, lost)
  {
    AmortisedDrop(w, w', links - 1, lost + moved);
    assert w * (links + 2) == w * (links + 1) + w;
  }

  lemma WorkPays(x: World, x': World)
    requires Works(x, x')
    ensures Pays(x, x')
  {
    hide Work, LiveLinks, Amortised;
    AmortisedDrop(Work(x), Work(x'), LiveLinks(x), |x.lostSp| + |x.lostRe|);
  }

  // ----- the reassembler's steps

  lemma {:induction false} ResetsCost(cids: seq<u32>)
    ensures Weigh(Resets(cids), CostToSp) == 2 * |cids|
  {
    if cids != [] {
      var i := |cids| - 1;
      ResetsCost(cids[..i]);
      assert Resets(cids)[..i] == Resets(cids[..i]);
    }
  }

  lemma SendsCost(s: Re.State, e: Re.Event, fin: u64, s': Re.State)
    requires s.rsts <= s'.rsts
    ensures var out, k := Sends(s, e, fin, s'), |s'.rsts| - |s.rsts|;
            var f := if e.EgressEof? && e.finSent then 1 else 0;
            |out| == k + f && Weigh(out, CostToSp) == 2 * k + f
  {
    var tail := Resets(s'.rsts[|s.rsts|..]);
    var head := if e.EgressEof? && e.finSent then [Fin(e.cid, fin)] else [];
    ResetsCost(s'.rsts[|s.rsts|..]);
    WeighConcat(head, tail, CostToSp);
    if head != [] {
      WeighOne(Fin(e.cid, fin), CostToSp);
    }
  }

  /** `y` is the world whose reassembler is about to take a frame worth `Income(e)` off the wire. */
  lemma ReStepWorks(y: World, e: Re.Event, fin: u64, route: nat -> nat, x': World)
    requires ReStep(y, e, fin, route, x') && !Silent(e)
    ensures x'.sent >= y.sent && LiveLinks(x') == LiveLinks(y) && x'.lostSp == y.lostSp && x'.lostRe == y.lostRe
    ensures Work(x') + (x'.sent - y.sent) <= Work(y) + Income(e) && Work(x') < Work(y) + Income(e)
  {
    hide Re.Next, Load, Weigh, Alive, ReCost, Sends, PostAll, Abandons;
    StepCost(y.re, e, x'.re);
    SendsCost(y.re, e, fin, x'.re);
    PostAllLoad(y.toSp, Sends(y.re, e, fin, x'.re), route, CostToSp);
  }

  // ----- the splitter's steps

  /** From `x` to `x'`: at most `n` frames sent and work up by at most `k`. */
  ghost predicate Adds(x: World, x': World, k: int, n: nat) {
    && x.sent <= x'.sent <= x.sent + n
    && Work(x') <= Work(x) + k
    && LiveLinks(x') == LiveLinks(x)
    && x'.lostSp == x.lostSp && x'.lostRe == x.lostRe
  }

  lemma ToReAdds(x: World, f: Packet, at: nat)
    ensures Adds(x, ToRe(x, f, at), CostToRe(f), 1)
  {
    hide Load, Weigh, Alive, ReCost, CostToRe;
    PostLoad(x.toRe, f, at, CostToRe);
  }

  lemma ToSpAdds(x: World, f: Packet, at: nat)
    ensures Adds(x, ToSp(x, f, at), CostToSp(f), 1)
  {
    hide Load, Weigh, Alive, ReCost, CostToSp;
    PostLoad(x.toSp, f, at, CostToSp);
  }

  lemma LeaveAdds(x: World, cid: u32)
    ensures Adds(x, Leave(x, cid), if cid in x.sp.conns then -2 else 0, 0)
  {
    hide Load, Weigh, Alive, ReCost;
    RemovedSize(x.sp.conns, cid);
  }

  lemma ResetConnAdds(x: World, cid: u32, at: nat)
    ensures Adds(x, ResetConn(x, cid, at), if cid in x.sp.conns then -1 else 1, 1)
  {
    hide Work, LiveLinks;
    LeaveAdds(x, cid);
    ToReAdds(Leave(x, cid), Rst(cid), at);
  }

  lemma UpdateClientAdds(x: World, cid: u32, c: Client)
    requires cid in x.sp.conns
    ensures Adds(x, x.(sp := x.sp.(conns := x.sp.conns[cid := c])), 0, 0)
  {
    hide Load, Weigh, Alive, ReCost;
  }

  /** A frame toward the splitter costs more than its handling can add. */
  lemma InboundAdds(x: World, f: Packet, accepts: nat -> bool, at: nat)
    ensures Adds(x, Inbound(x, f, accepts, at), CostToSp(f) - 1, 1)
  {
    hide Work, LiveLinks, R.OnData;
    match f
    case Data(cid, n, payload) =>
      if cid in x.sp.conns {
        var c := x.sp.conns[cid];
        var r := R.OnData(R.Splitter, c.window, c.output, n, payload, accepts);
        var c' := c.(window := r.window, output := r.output);
        UpdateClientAdds(x, cid, c');
        ResetConnAdds(x.(sp := x.sp.(conns := x.sp.conns[cid := c'])), cid, at);
      } else {
        ToReAdds(x, Rst(cid), at);
      }
    case Fin(cid, n) =>
      if cid in x.sp.conns {
        UpdateClientAdds(x, cid, x.sp.conns[cid].(finReceived := true, finSeq := n));
      }
    case Rst(cid) => ResetConnAdds(x, cid, at);
    case Syn(_, _) =>
  }

  lemma OpenAdds(x: World, cid: u32, valid: bool, at: nat)
    requires x.opens > 0 && cid !in x.sp.conns
    ensures Adds(x, Open(x, cid, valid, at), -1, 1)
  {
    hide Load, Weigh, Alive, ReCost;
    ToReAdds(x.(opens := x.opens - 1), Syn(cid, valid), at);
  }

  lemma EndAdds(x: World, cid: u32, how: Ending, at: nat)
    requires cid in x.sp.loops
    ensures Adds(x, End(x, cid, how, at), -1, 1)
  {
    hide Load, Weigh, Alive, ReCost;
    var y := x.(sp := x.sp.(loops := x.sp.loops - multiset{cid}));
    assert Adds(x, y, -5, 0);
    match how
    case WithFin(n) => ToReAdds(y, Fin(cid, n), at);
    case WithRst => ToReAdds(y, Rst(cid), at);
    case WithNothing =>
  }

  lemma LeftoverAdds(x: World, cid: u32, resets: bool, at: nat, x': World)
    requires Next(x, LeftoverEnds(cid, resets, at), x')
    ensures Adds(x, x', -1, 1)
  {
    hide Load, Weigh, Alive, ReCost;
    var y := x.(leftover := x.leftover - multiset{cid});
    assert Adds(x, y, -3, 0);
    ToSpAdds(y, Rst(cid), at);
  }

  lemma InputAdds(x: World, st: Step, x': World)
    requires Next(x, st, x') && (st.ClientSends? || st.TargetSends?)
    ensures Adds(x, x', -1, 1)
  {
    hide Load, Weigh, Alive, ReCost;
    if st.ClientSends? {
      ToReAdds(x.(chunks := x.chunks - 1), Data(st.cid, st.n, st.payload), st.at);
    } else {
      ToSpAdds(x.(replies := x.replies - 1), Data(st.cid, st.n, st.payload), st.at);
    }
  }

  lemma EveryFrameCosts()
    ensures forall f :: CostToRe(f) >= 1 && CostToSp(f) >= 1
  {
  }

  /** Taking a frame off a link gives back its cost. */
  lemma TakenAdds(x: World, i: nat)
    ensures i < |x.toRe| && x.toRe[i].frames != [] ==>
              Adds(x, x.(toRe := Taken(x.toRe, i)), 0 - CostToRe(x.toRe[i].frames[0]), 0)
    ensures i < |x.toSp| && x.toSp[i].frames != [] ==>
              Adds(x, x.(toSp := Taken(x.toSp, i)), 0 - CostToSp(x.toSp[i].frames[0]), 0)
  {
    hide Load, Weigh, Alive, ReCost, CostToRe, CostToSp, Taken;
    if i < |x.toRe| && x.toRe[i].frames != [] {
      TakenLoad(x.toRe, i, CostToRe);
    }
    if i < |x.toSp| && x.toSp[i].frames != [] {
      TakenLoad(x.toSp, i, CostToSp);
    }
  }

  lemma ReHandlesWorks(x: World, i: nat, e: Re.Event, route: nat -> nat, x': World)
    requires Next(x, ReHandles(i, e, route), x')
    ensures Works(x, x')
  {
    hide ReStep, Work, LiveLinks;
    TakenAdds(x, i);
    ReStepWorks(x.(toRe := Taken(x.toRe, i)), e, 0, route, x');
  }

  // ----- dead links

  lemma SpLinkPays(x: World, i: nat, written: nat, failed: nat, x': World)
    requires Next(x, SpLinkDies(i, written, failed), x')
    ensures Pays(x, x')
  {
    hide Load, Weigh, Alive, ReCost, Amortised, Cut;
    var moved := x.toRe[i].frames[failed..];
    CutLoad(x.toRe, i, written, failed, CostToRe);
    WeighConcat(x.lostSp, moved, CostToRe);
    WeighAtLeast(moved, CostToRe);
    AmortisedLink(Work(x), Work(x'), LiveLinks(x), |x.lostSp| + |x.lostRe|, |moved|);
  }

  lemma ReLinkPays(x: World, i: nat, written: nat, failed: nat, x': World)
    requires Next(x, ReLinkDies(i, written, failed), x')
    ensures Pays(x, x')
  {
    hide Load, Weigh, Alive, ReCost, Amortised, Cut;
    var moved := x.toSp[i].frames[failed..];
    CutLoad(x.toSp, i, written, failed, CostToSp);
    WeighConcat(x.lostRe, moved, CostToSp);
    WeighAtLeast(moved, CostToSp);
    AmortisedLink(Work(x), Work(x'), LiveLinks(x), |x.lostSp| + |x.lostRe|, |moved|);
  }

  lemma AmortisedRecovery(w: nat, w': nat, links: nat, lost: nat)
    requires w' <= w && lost > 0
    ensures Amortised(w', links, lost - 1) < Amortised(w, links, lost)
  {
    AmortisedDrop(w, w', links, lost - 1);
  }

  lemma PoppedWork(x: World)
    ensures x.lostSp != [] ==> Work(x.(lostSp := x.lostSp[1..])) + CostToRe(x.lostSp[0]) == Work(x)
    ensures x.lostRe != [] ==> Work(x.(lostRe := x.lostRe[1..])) + CostToSp(x.lostRe[0]) == Work(x)
  {
    hide Load, Weigh, Alive, ReCost, CostToRe, CostToSp;
    if x.lostSp != [] {
      WeighHead(x.lostSp, CostToRe);
    }
    if x.lostRe != [] {
      WeighHead(x.lostRe, CostToSp);
    }
  }

  lemma SpRecoversPays(x: World, at: nat, x': World)
    requires Next(x, SpRecovers(at), x')
    ensures Pays(x, x')
  {
    hide Work, Alive, Amortised, ToRe, ResetConn;
    var f, y := x.lostSp[0], x.(lostSp := x.lostSp[1..]);
    PoppedWork(x);
    ToReAdds(y, f, at);
    ResetConnAdds(y, f.cid, at);
    AmortisedRecovery(Work(x), Work(x'), LiveLinks(x), |x.lostSp| + |x.lostRe|);
  }

  lemma ReRecoversPays(x: World, at: nat, x': World)
    requires Next(x, ReRecovers(at), x')
    ensures Pays(x, x')
  {
    hide Work, Alive, Amortised, ToSp;
    var f, y := x.lostRe[0], x.(lostRe := x.lostRe[1..]);
    PoppedWork(x);
    ToSpAdds(y, if f.Data? then Rst(f.cid) else f, at);
    AmortisedRecovery(Work(x), Work(x'), LiveLinks(x), |x.lostSp| + |x.lostRe|);
  }

  // ----- every step, every run

  lemma QuietPays(x: World, st: Step, x': World)
    requires Next(x, st, x') && Quiet(st)
    ensures x'.sent == x.sent && Potential(x') == Potential(x)
  {
    hide Re.Next, Load, Weigh, Alive, ReCost, Amortised;
    if st.ReActs? {
      SilentCost(x.re, st.e, x'.re);
      var out := Sends(x.re, st.e, st.fin, x'.re);
      assert out == [];
      assert PostAll(x.toSp, out, st.route) == x.toSp;
    }
  }

  lemma ActivePays(x: World, st: Step, x': World)
    requires Next(x, st, x') && !Quiet(st)
    ensures Pays(x, x')
  {
    hide Work, LiveLinks, Potential, ReStep, Inbound, Taken, CostToRe, CostToSp;
    hide Open, End, ToRe, ToSp, Leave, ResetConn;
    match st
    case ReHandles(i, e, route) =>
      ReHandlesWorks(x, i, e, route, x');
      WorkPays(x, x');
    case ReActs(e, fin, route) =>
      ReStepWorks(x, e, fin, route, x');
      WorkPays(x, x');
    case SpHandles(i, accepts, at) =>
      TakenAdds(x, i);
      InboundAdds(x.(toSp := Taken(x.toSp, i)), x.toSp[i].frames[0], accepts, at);
      WorkPays(x, x');
    case LeftoverEnds(cid, resets, at) =>
      LeftoverAdds(x, cid, resets, at, x');
      WorkPays(x, x');
    case ClientOpens(cid, valid, at) =>
      OpenAdds(x, cid, valid, at);
      WorkPays(x, x');
    case ClientSends(cid, n, payload, at) =>
      InputAdds(x, st, x');
      WorkPays(x, x');
    case ClientEnds(cid, how, at) =>
      EndAdds(x, cid, how, at);
      WorkPays(x, x');
    case ClientRemoved(cid) =>
      LeaveAdds(x, cid);
      WorkPays(x, x');
    case ClientSwept(cid, at) =>
      ResetConnAdds(x, cid, at);
      WorkPays(x, x');
    case TargetSends(cid, n, payload, at) =>
      InputAdds(x, st, x');
      WorkPays(x, x');
    case SpLinkDies(i, written, failed) => SpLinkPays(x, i, written, failed, x');
    case ReLinkDies(i, written, failed) => ReLinkPays(x, i, written, failed, x');
    case SpRecovers(at) => SpRecoversPays(x, at, x');
    case ReRecovers(at) => ReRecoversPays(x, at, x');
    case LostOnWay(towardRe, i) =>
      TakenAdds(x, i);
      EveryFrameCosts();
      WorkPays(x, x');
    case TimeWaitExpires(_) =>
  }

  function ActiveSteps(steps: seq<Step>): nat {
    if steps == [] then 0
    else ActiveSteps(steps[..|steps| - 1]) + if Quiet(steps[|steps| - 1]) then 0 else 1
  }

  /** From any state whatever, the frames sent and the steps taken in the rest of the run are
      bounded by that state's potential, however links die and whatever the order of delivery. */
  lemma {:induction false} ExchangeTerminates(worlds: seq<World>, steps: seq<Step>)
    requires IsRun(worlds, steps)
    ensures var first, last := worlds[0], worlds[|steps|];
            && last.sent - first.sent <= Potential(first) - Potential(last)
            && ActiveSteps(steps) <= Potential(first) - Potential(last)
  {
    hide Next, Quiet, Potential;
    if steps != [] {
      var n := |steps| - 1;
      forall i | 0 <= i < n
        ensures Next(worlds[..n + 1][i], steps[..n][i], worlds[..n + 1][i + 1])
      {
        assert steps[i] == steps[..n][i];
      }
      ExchangeTerminates(worlds[..n + 1], steps[..n]);
      assert Next(worlds[n], steps[n], worlds[n + 1]);
      if Quiet(steps[n]) {
        QuietPays(worlds[n], steps[n], worlds[n + 1]);
      } else {
        ActivePays(worlds[n], steps[n], worlds[n + 1]);
      }
    }
  }

  /** An unending run falls silent: from some point on nothing is sent, delivered or lost. */
  lemma {:induction false} EventuallyQuiet(world: nat -> World, step: nat -> Step, from: nat) returns (n: nat)
    requires forall i: nat :: i >= from ==> Next(world(i), step(i), world(i + 1))
    ensures n >= from && forall i: nat :: i >= n ==> Quiet(step(i)) && world(i + 1).sent == world(i).sent
    decreases Potential(world(from))
  {
    hide Next, Quiet, Potential;
    if i: nat :| i >= from && !Quiet(step(i)) {
      PotentialNeverGrows(world, step, from, i);
      ActivePays(world(i), step(i), world(i + 1));
      n := EventuallyQuiet(world, step, i + 1);
    } else {
      n := from;
      forall i: nat | i >= n
        ensures world(i + 1).sent == world(i).sent
      {
        QuietPays(world(i), step(i), world(i + 1));
      }
    }
  }

  lemma {:induction false} PotentialNeverGrows(world: nat -> World, step: nat -> Step, from: nat, i: nat)
    requires from <= i && forall j: nat :: j >= from ==> Next(world(j), step(j), world(j + 1))
    ensures Potential(world(i)) <= Potential(world(from))
    decreases i
  {
    hide Next, Quiet, Potential;
    if from < i {
      PotentialNeverGrows(world, step, from, i - 1);
      if Quiet(step(i - 1)) {
        QuietPays(world(i - 1), step(i - 1), world(i));
      } else {
        ActivePays(world(i - 1), step(i - 1), world(i));
      }
    }
  }
}
