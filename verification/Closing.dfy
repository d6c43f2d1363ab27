/** The half-close of established connections over whole runs: the write half is closed exactly when
    the stream is complete through its FIN, or the fallback timer forced it, and a connection that is
    over both ways is gone. */
module Closing {
  import opened Wire
  import opened Reassembler
  import L = Lifecycle
  import N = NoSilentLoss
  import H = Handlers
  import P = Provenance
  import Reorder
  import R = Receiver

  /** The fallback timer has fired for `cid`. */
  ghost predicate Forced(h: seq<Event>, cid: u32) {
    ForceClose(cid) in h
  }

  /** Every chunk below the FIN's number is in. */
  predicate Complete(c: Conn) {
    c.finReceived && c.window.expected >= c.finSeq
  }

  ghost predicate CloseOk(c: Conn, forced: bool) {
    && (c.hc == 0 || c.hc == 2)
    && (c.hc == 2 ==> c.finReceived && (Complete(c) || forced))
    && (Complete(c) ==> c.hc == 2 && !c.eof)
  }

  ghost predicate AllCloseOk(s: State, h: seq<Event>) {
    forall cid :: cid in s.conns ==> CloseOk(s.conns[cid], Forced(h, cid))
  }

  /** The window only ever grows. */
  lemma ExpectedGrows(c: Conn, c': Conn)
    requires N.ConnOk(c) && N.ConnOk(c') && forall k: u64 :: c.window.Has(k) ==> c'.window.Has(k)
    ensures c.window.expected <= c'.window.expected
  {
    P.ExpectedIsMissing(c');
  }

  lemma FinishOk(s: State, cid: u32, c: Conn, forced: bool)
    requires CloseOk(c.(eof := false), forced)
    ensures var t := FinishIfDone(s, cid, c);
            cid in t.conns ==> t.conns[cid] == c && CloseOk(c, forced)
  {
  }

  lemma RecheckOk(c: Conn, d: Conn, forced: bool)
    requires CloseOk(c, forced) && d == c.(window := d.window, output := d.output)
    requires c.window.expected <= d.window.expected
    ensures CloseOk((if d.finReceived then CloseWriteHalf(d) else d).(eof := false), forced)
    ensures !d.finReceived ==> CloseOk(d, forced)
  {
  }

  lemma HalfCloseOk(c: Conn, n: u64, forced: bool)
    requires CloseOk(c, forced)
    ensures CloseOk(StartHalfClose(c, n).(eof := false), forced)
  {
  }

  lemma DataOk(s: State, e: Event, s': State, forced: bool)
    requires N.ConnsOk(s) && e.OnData? && e.cid in s.conns && Next(s, e, s') && CloseOk(s.conns[e.cid], forced)
    ensures e.cid in s'.conns ==> CloseOk(s'.conns[e.cid], forced)
  {
    hide CloseOk, N.ConnOk, Reorder.Pushed, R.Offer, CloseWriteHalf, FinishIfDone, Complete;
    var c := s.conns[e.cid];
    var r := R.OnData(R.Reassembler, c.window, c.output, e.n, e.payload, e.accepts);
    var d := c.(window := r.window, output := r.output);
    if !r.reset {
      N.ReceiveKeeps(c, e.n, e.payload, e.accepts);
      ExpectedGrows(c, d);
      RecheckOk(c, d, forced);
      if d.finReceived {
        FinishOk(s, e.cid, CloseWriteHalf(d), forced);
      }
    }
  }

  lemma ConnectedOk(s: State, cid: u32, offers: nat -> nat -> bool, s': State, forced: bool)
    requires cid !in s.conns && Next(s, Connected(cid, offers), s')
    ensures cid in s'.conns ==> CloseOk(s'.conns[cid], forced)
  {
    hide CloseOk, Replay, EndHandshake, FinishIfDone, StartHalfClose;
    H.EndLaw(s, cid);
    FreshCloseOk(s, forced);
    if cid in s.pending {
      var p := Replay(FreshConn(s), s.pending[cid].frames, offers);
      if !p.failed {
        H.ReplayEnds(FreshConn(s), s.pending[cid].frames, offers);
        OpenCloseOk(p.conn, forced);
        if p.fin != [] {
          HalfCloseOk(p.conn, p.fin[0], forced);
          StillOpen(p.conn, p.fin[0]);
          FinishOk(EndHandshake(s, cid), cid, StartHalfClose(p.conn, p.fin[0]), forced);
        }
      }
    }
  }

  lemma StillOpen(c: Conn, n: u64)
    requires !c.eof
    ensures StartHalfClose(c, n).(eof := false) == StartHalfClose(c, n)
  {
  }

  lemma OpenCloseOk(c: Conn, forced: bool)
    requires !c.finReceived && c.hc == 0
    ensures CloseOk(c, forced)
  {
  }

  lemma FreshCloseOk(s: State, forced: bool)
    ensures CloseOk(FreshConn(s), forced)
  {
  }

  /** The connection an event is about. */
  lemma OwnOk(s: State, e: Event, s': State, forced: bool)
    requires L.Inv(s) && N.ConnsOk(s) && Next(s, e, s') && !e.Tick?
    requires e.cid in s.conns ==> CloseOk(s.conns[e.cid], forced)
    requires e.ForceClose? ==> forced
    ensures e.cid in s'.conns ==> CloseOk(s'.conns[e.cid], forced)
  {
    hide CloseOk, DataStep, FinStep, SynConnected, FinishIfDone, L.Inv, N.ConnsOk;
    var cid := e.cid;
    L.OthersUnchanged(s, e, s');
    if e.Connected? {
      OwnApart(s, cid);
      ConnectedOk(s, cid, e.offers, s', forced);
    } else if cid in s.conns {
      match e
      case OnData(_, _, _, _, _) => DataOk(s, e, s', forced);
      case OnFin(_, n) =>
        HalfCloseOk(s.conns[cid], n, forced);
        FinOk(s, cid, n, forced);
      case EgressEof(_, finSent) =>
        EofOk(s.conns[cid], forced);
        FinishOk(if finSent then s else SendRst(s, cid), cid, s.conns[cid].(eof := true), forced);
      case ForceClose(_) => ForceOk(s.conns[cid]);
      case _ => OthersLeave(s, e, s');
    }
  }

  lemma FinOk(s: State, cid: u32, n: u64, forced: bool)
    requires cid in s.conns && CloseOk(StartHalfClose(s.conns[cid], n).(eof := false), forced)
    ensures var t := FinStep(s, cid, n); cid in t.conns ==> CloseOk(t.conns[cid], forced)
  {
    FinishOk(s, cid, StartHalfClose(s.conns[cid], n), forced);
  }

  lemma EofOk(c: Conn, forced: bool)
    requires CloseOk(c, forced)
    ensures CloseOk(c.(eof := true).(eof := false), forced)
  {
  }

  lemma ForceOk(c: Conn)
    requires CloseOk(c, true) && c.finReceived
    ensures CloseOk(c.(hc := 2), true)
  {
  }

  lemma OwnApart(s: State, cid: u32)
    requires L.Inv(s) && cid in s.handshaking
    ensures cid !in s.conns
  {
  }

  lemma OthersLeave(s: State, e: Event, s': State)
    requires Next(s, e, s') && !e.Tick? && e.cid in s.conns
    requires !e.OnData? && !e.OnFin? && !e.EgressEof? && !e.ForceClose? && !e.Connected?
    ensures e.cid in s'.conns ==> s'.conns[e.cid] == s.conns[e.cid]
  {
  }

  lemma StepOk(s: State, e: Event, s': State, h: seq<Event>)
    requires L.Inv(s) && N.ConnsOk(s) && Next(s, e, s') && AllCloseOk(s, h)
    ensures AllCloseOk(s', h + [e])
  {
    hide CloseOk, Next, L.Inv, N.ConnsOk;
    L.OthersUnchanged(s, e, s');
    forall cid | cid in s'.conns
      ensures CloseOk(s'.conns[cid], Forced(h + [e], cid))
    {
      if !e.Tick? && cid == e.cid {
        if cid in s.conns {
          MoreForced(s.conns[cid], h, e, cid);
        }
        OwnOk(s, e, s', Forced(h + [e], cid));
      } else {
        MoreForced(s.conns[cid], h, e, cid);
      }
    }
  }

  lemma MoreForced(c: Conn, h: seq<Event>, e: Event, cid: u32)
    requires CloseOk(c, Forced(h, cid))
    ensures CloseOk(c, Forced(h + [e], cid))
  {
  }

  lemma {:induction false} RunOk(states: seq<State>, events: seq<Event>, i: nat)
    requires IsRun(states, events) && i < |states|
    ensures AllCloseOk(states[i], events[..i])
  {
    hide Next, L.Inv, N.ConnsOk, CloseOk;
    if i > 0 {
      RunOk(states, events, i - 1);
      L.RunInv(states, events, i - 1);
      N.RunKeeps(states, events, i - 1);
      assert events[..i] == events[..i - 1] + [events[i - 1]];
      StepOk(states[i - 1], events[i - 1], states[i], events[..i - 1]);
    }
  }

  /** In every reachable state an established connection's write half is closed exactly when every
      chunk below its FIN's number is in, or the fallback timer fired for it; and once the egress has
      ended as well, a complete connection is no longer established. */
  lemma WriteHalfClosesExactly(states: seq<State>, events: seq<Event>, i: nat, cid: u32)
    requires IsRun(states, events) && i < |states| && cid in states[i].conns
    ensures var c := states[i].conns[cid];
            && (c.finReceived && c.window.IsCompleteThrough(c.finSeq) ==> c.hc == 2 && !c.eof)
            && (c.hc == 2 ==> c.finReceived && (c.window.IsCompleteThrough(c.finSeq) || ForceClose(cid) in events[..i]))
            && (c.hc == 0 || c.hc == 2)
  {
    hide Next;
    RunOk(states, events, i);
  }
}
