/** No ghost egress: a connection identifier that is tombstoned, queued or mid-handshake is not
    established, and a reset that lands during the egress connect is never overtaken by it. */
module Lifecycle {
  import opened Wire
  import opened Reassembler
  import opened PendingBudget
  import Reorder
  import Receiver

  ghost predicate Apart(s: State) {
    forall c :: c in s.conns ==> c !in s.closed && c !in s.pending && c !in s.handshaking
  }

  /** Handshakes are younger than the connect timeout, and a tombstone that coexists with a
      handshake was set after that handshake began. */
  ghost predicate Timely(s: State) {
    && (forall c :: c in s.handshaking ==> s.handshaking[c].start <= s.now <= s.handshaking[c].start + CONNECT_TIMEOUT)
    && (forall c :: c in s.closed ==> s.closed[c] <= s.now)
    && (forall c :: c in s.handshaking && c in s.closed ==> s.handshaking[c].start <= s.closed[c])
  }

  ghost predicate Inv(s: State) {
    Budget(s) && Apart(s) && Timely(s)
  }

  /** What one step may do to each identifier. */
  ghost predicate StepShape(s: State, s': State) {
    && Apart(s') && Timely(s')
    && s'.now >= s.now
    && (forall c :: c in s.conns && c !in s'.conns ==> c in s'.closed)
    && (forall c :: c in s'.conns && c !in s.conns ==> c in s.handshaking && c !in s.closed)
    && (forall c :: c in s.handshaking && c in s.closed && c in s'.handshaking ==> c in s'.closed)
  }

  lemma NoStepShape(s: State)
    requires Apart(s) && Timely(s)
    ensures StepShape(s, s)
  {
  }

  lemma TeardownShape(s: State, cid: u32)
    requires Apart(s) && Timely(s) && cid in s.conns
    ensures StepShape(s, Teardown(s, cid)) && StepShape(s, Reset(s, cid))
  {
  }

  lemma UpdateConnShape(s: State, cid: u32, c: Conn)
    requires Apart(s) && Timely(s) && cid in s.conns
    ensures StepShape(s, s.(conns := s.conns[cid := c])) && StepShape(s, FinishIfDone(s, cid, c))
  {
    hide IsDone;
    TeardownShape(s, cid);
  }

  lemma DataOnConnShape(s: State, cid: u32, n: u64, payload: Bytes, accepts: nat -> bool)
    requires Apart(s) && Timely(s) && cid in s.conns
    ensures StepShape(s, DataOnConn(s, cid, n, payload, accepts))
  {
    hide Receiver.Offer, CloseWriteHalf, FinishIfDone, Reset, StepShape;
    NoStepShape(s);
    TeardownShape(s, cid);
    var c := s.conns[cid];
    var (w, r) := Reorder.Pushed(c.window, n, payload);
    var o := Receiver.Offer(Receiver.Reassembler, r.ready, 0, accepts);
    var c' := c.(window := w, output := c.output + o.accepted);
    UpdateConnShape(s, cid, c');
    UpdateConnShape(s, cid, CloseWriteHalf(c'));
  }

  /** A step that keeps `conns` and the handshakes, touches the queue of `cid` alone, and adds at
      most a fresh tombstone for `cid`. */
  lemma QuietShape(s: State, cid: u32, s': State)
    requires Apart(s) && Timely(s) && cid !in s.conns
    requires s'.conns == s.conns && s'.now == s.now && s'.pending.Keys <= s.pending.Keys + {cid}
    requires SameHandshakes(s, s')
    requires s'.closed == s.closed || s'.closed == s.closed[cid := s.now]
    ensures StepShape(s, s')
  {
  }

  lemma FailPendingShape(s: State, cid: u32)
    requires Apart(s) && Timely(s) && cid !in s.conns
    ensures StepShape(s, FailPending(s, cid)) && StepShape(s, Tombstone(MarkCancelled(s, cid), cid))
  {
    hide StepShape, Apart, Timely;
    QuietShape(s, cid, FailPending(s, cid));
    QuietShape(s, cid, Tombstone(MarkCancelled(s, cid), cid));
  }

  lemma EvictedShape(s: State, ks: seq<u32>, t: State)
    requires Apart(s) && Timely(s) && EvictedExactly(s, ks, t)
    requires forall k :: k in ks ==> k in s.pending
    ensures StepShape(s, t) && Apart(t) && Timely(t)
  {
  }

  lemma ShapeCompose(s: State, t: State, u: State)
    requires StepShape(s, t) && StepShape(t, u)
    requires t.conns == s.conns && t.handshaking.Keys == s.handshaking.Keys && s.closed.Keys <= t.closed.Keys
    ensures StepShape(s, u)
  {
  }

  /** Queueing a frame touches nothing but the queue of an identifier that is not established. */
  lemma EnqueueShape(s: State, cid: u32, m: Msg)
    requires Apart(s) && Timely(s) && cid !in s.conns
    ensures cid in s.pending ==> StepShape(s, Enqueue(s, cid, m))
    ensures cid !in s.pending ==> StepShape(s, Enqueue(NewEntry(s, cid), cid, m))
  {
  }

  lemma DataQueuedShape(s: State, cid: u32, m: Msg, ks: seq<u32>)
    requires Inv(s) && cid !in s.conns && EvictionRun(s, Exempt(s, cid), MsgBytes(m), ks)
    ensures StepShape(s, DataQueued(s, cid, m, ks))
  {
    hide EvictionRun, EvictAll, Budget, FailPending, Enqueue, StepShape;
    EvictionEffect(s, Exempt(s, cid), MsgBytes(m), ks);
    var t := EvictAll(s, ks);
    assert StepShape(s, t) && Apart(t) && Timely(t) by {
      EvictedShape(s, ks, t);
    }
    FailPendingShape(t, cid);
    EnqueueShape(t, cid, m);
    assert s.closed.Keys <= t.closed.Keys;
    ShapeCompose(s, t, DataQueued(s, cid, m, ks));
  }

  lemma DataStepShape(s: State, cid: u32, n: u64, payload: Bytes, accepts: nat -> bool, ks: seq<u32>, s': State)
    requires Inv(s) && DataStep(s, cid, n, payload, accepts, ks, s')
    ensures StepShape(s, s')
  {
    hide DataOnConn, DataQueued, EvictionRun, Budget, FailPending;
    if cid in s.conns {
      DataOnConnShape(s, cid, n, payload, accepts);
    } else if cid !in s.closed {
      FailPendingShape(s, cid);
      if cid in s.pending || |s.pending| < MAX_PENDING_CIDS {
        DataQueuedShape(s, cid, Data(n, payload), ks);
      }
    }
  }

  lemma FinStepShape(s: State, cid: u32, n: u64)
    requires Apart(s) && Timely(s)
    ensures StepShape(s, FinStep(s, cid, n))
  {
    hide FinishIfDone, StartHalfClose, Enqueue, FailPending, StepShape;
    NoStepShape(s);
    if cid in s.conns {
      UpdateConnShape(s, cid, StartHalfClose(s.conns[cid], n));
    } else {
      FailPendingShape(s, cid);
      EnqueueShape(s, cid, Fin(n));
    }
  }

  lemma SynBeginShape(s: State, cid: u32, valid: bool)
    requires Apart(s) && Timely(s)
    ensures StepShape(s, SynBegin(s, cid, valid))
  {
    hide StepShape, Apart, Timely;
    NoStepShape(s);
    if cid !in s.conns && cid !in s.handshaking {
      var s' := SynBegin(s, cid, valid);
      if cid in s.closed || !valid {
        QuietShape(s, cid, s');
      } else {
        HandshakeBeginShape(s, cid, s');
      }
    }
  }

  lemma HandshakeBeginShape(s: State, cid: u32, s': State)
    requires Apart(s) && Timely(s) && cid !in s.conns && cid !in s.closed && cid !in s.handshaking
    requires s'.conns == s.conns && s'.now == s.now && s'.closed == s.closed
    requires s'.pending.Keys == s.pending.Keys + {cid}
    requires s'.handshaking == s.handshaking[cid := Handshake(s.now, false)]
    ensures StepShape(s, s')
  {
  }

  lemma HandshakeEndShape(s: State, cid: u32)
    requires Apart(s) && Timely(s) && cid in s.handshaking
    ensures var t := EndHandshake(s, cid);
            && StepShape(s, Tombstone(t, cid)) && StepShape(s, SendRst(Tombstone(t, cid), cid))
            && (cid in s.closed ==> StepShape(s, t))
  {
    hide StepShape;
    var t := EndHandshake(s, cid);
    EndedShape(s, cid, Tombstone(t, cid));
    EndedShape(s, cid, SendRst(Tombstone(t, cid), cid));
    EndedShape(s, cid, t);
  }

  lemma EndedShape(s: State, cid: u32, s': State)
    requires Apart(s) && Timely(s) && cid in s.handshaking
    requires s'.conns == s.conns && s'.now == s.now && s'.pending.Keys <= s.pending.Keys
    requires s'.handshaking == s.handshaking - {cid}
    requires s'.closed == s.closed || s'.closed == s.closed[cid := s.now]
    ensures StepShape(s, s')
  {
  }

  lemma EstablishShape(s: State, cid: u32, c: Conn)
    requires Apart(s) && Timely(s) && cid in s.handshaking && cid !in s.closed
    ensures var t := EndHandshake(s, cid); StepShape(s, t.(conns := t.conns[cid := c]))
  {
  }

  lemma SynConnectedShape(s: State, cid: u32, offers: nat -> nat -> bool)
    requires Apart(s) && Timely(s) && cid in s.handshaking
    ensures StepShape(s, SynConnected(s, cid, offers))
  {
    hide Replay, StartHalfClose, EndHandshake, StepShape, Tombstone, SendRst;
    HandshakeEndShape(s, cid);
    if cid !in s.closed {
      EstablishShape(s, cid, FreshConn(s));
      if cid in s.pending {
        var p := Replay(FreshConn(s), s.pending[cid].frames, offers);
        EstablishShape(s, cid, p.conn);
        if p.fin != [] {
          EstablishShape(s, cid, StartHalfClose(p.conn, p.fin[0]));
          TeardownFresh(s, cid);
        }
      }
    }
  }

  lemma TeardownFresh(s: State, cid: u32)
    requires Apart(s) && cid in s.handshaking
    ensures Teardown(EndHandshake(s, cid), cid) == Tombstone(EndHandshake(s, cid), cid)
  {
    assert EndHandshake(s, cid).conns - {cid} == s.conns;
  }

  lemma SweepShape(s: State, cid: u32)
    requires Apart(s) && Timely(s) && cid in s.pending
    ensures StepShape(s, Evict(s, cid))
  {
    var t := Evict(s, cid);
    assert t.conns == s.conns && t.pending == s.pending - {cid} && t.closed == s.closed[cid := s.now];
  }

  /** A tombstone outlives every connect it coexists with. */
  lemma ExpiryShape(s: State, cid: u32)
    requires Apart(s) && Timely(s) && cid in s.closed && s.now >= s.closed[cid] + CLOSED_TTL
    ensures cid !in s.handshaking && StepShape(s, s.(closed := s.closed - {cid}))
  {
  }

  lemma TickShape(s: State, later: nat)
    requires Apart(s) && Timely(s) && later >= s.now
    requires forall c :: c in s.handshaking ==> later <= s.handshaking[c].start + CONNECT_TIMEOUT
    ensures StepShape(s, s.(now := later))
  {
  }

  lemma EofShape(s: State, cid: u32, finSent: bool)
    requires Apart(s) && Timely(s) && cid in s.conns
    ensures StepShape(s, FinishIfDone(if finSent then s else SendRst(s, cid), cid, s.conns[cid].(eof := true)))
  {
    hide IsDone;
    TeardownShape(s, cid);
  }

  lemma StepHasShape(s: State, e: Event, s': State)
    requires Inv(s) && Next(s, e, s')
    ensures StepShape(s, s')
  {
    hide DataStep, FinStep, MarkCancelled, SynBegin, SynConnected, EndHandshake, FinishIfDone, Reset, Evict;
    hide StepShape, Tombstone, SendRst, Budget;
    match e
    case OnData(cid, n, payload, accepts, ks) => DataStepShape(s, cid, n, payload, accepts, ks, s');
    case OnFin(cid, n) => FinStepShape(s, cid, n);
    case OnRst(cid) =>
      if cid in s.conns {
        TeardownShape(s, cid);
      } else {
        FailPendingShape(s, cid);
      }
    case OnSyn(cid, valid) => SynBeginShape(s, cid, valid);
    case Connected(cid, offers) => SynConnectedShape(s, cid, offers);
    case ConnectFailed(cid) => HandshakeEndShape(s, cid);
    case ConnectCancelled(cid) => HandshakeEndShape(s, cid);
    case EgressEof(cid, finSent) => EofShape(s, cid, finSent);
    case EgressSendFailed(cid) => TeardownShape(s, cid);
    case ForceClose(cid) => UpdateConnShape(s, cid, s.conns[cid].(hc := 2));
    case IdleSweep(cid) => TeardownShape(s, cid);
    case StaleSweep(cid) => SweepShape(s, cid);
    case TombstoneExpires(cid) => ExpiryShape(s, cid);
    case Tick(later) => TickShape(s, later);
  }

  lemma StepInv(s: State, e: Event, s': State)
    requires Inv(s) && Next(s, e, s')
    ensures Inv(s') && StepShape(s, s')
  {
    hide Next, Budget;
    StepBudget(s, e, s');
    StepHasShape(s, e, s');
  }

  lemma InitInv(s: State)
    requires Init(s)
    ensures Inv(s)
  {
  }

  lemma {:induction false} RunInv(states: seq<State>, events: seq<Event>, i: nat)
    requires IsRun(states, events) && i < |states|
    ensures Inv(states[i])
    ensures i > 0 ==> StepShape(states[i - 1], states[i])
  {
    hide Next, StepShape, Inv;
    if i == 0 {
      InitInv(states[0]);
    } else {
      RunInv(states, events, i - 1);
      StepInv(states[i - 1], events[i - 1], states[i]);
    }
  }

  /** In every reachable state the established identifiers are apart from the tombstoned, the
      queued and the handshaking ones; whatever leaves `conns` is tombstoned in that very step;
      and only a handshake whose identifier carries no tombstone is ever established. */
  lemma NoGhostEgress(states: seq<State>, events: seq<Event>, i: nat)
    requires IsRun(states, events) && i < |events|
    ensures var s, s' := states[i], states[i + 1];
            && (forall c :: c in s'.conns ==> c !in s'.closed && c !in s'.pending && c !in s'.handshaking)
            && (forall c :: c in s.conns && c !in s'.conns ==> c in s'.closed)
            && (forall c :: c in s'.conns && c !in s.conns ==> c in s.handshaking && c !in s.closed)
  {
    RunInv(states, events, i + 1);
  }

  /** A tombstone set while a connect is in flight outlives that connect, which therefore never
      establishes the connection. */
  lemma {:induction false} ResetDuringConnectWins(states: seq<State>, events: seq<Event>, cid: u32, i: nat, j: nat)
    requires IsRun(states, events) && i <= j < |events|
    requires cid in states[i].closed
    requires forall k :: i <= k <= j ==> cid in states[k].handshaking
    ensures cid in states[j].closed && cid !in states[j + 1].conns
    decreases j
  {
    hide Next, Inv;
    if i < j {
      ResetDuringConnectWins(states, events, cid, i, j - 1);
      RunInv(states, events, j);
      assert cid in states[j].handshaking && cid in states[j - 1].handshaking;
    }
    RunInv(states, events, j);
    RunInv(states, events, j + 1);
    assert cid in states[j].handshaking;
  }

  // ----- how a connection ends

  /** A connection that is over in both directions once event `e` has taken effect: the splitter's
      FIN is in, the egress has ended, and the write half was closed already or the window is
      complete through the FIN. */
  ghost predicate BothWaysDone(c: Conn, e: Event, expected: u64) {
    && (c.eof || e.EgressEof?)
    && (c.finReceived || e.OnFin?)
    && (c.hc == 2 || expected >= if c.finReceived then c.finSeq else if e.OnFin? then e.n else 0)
  }

  /** The window after the step, for DATA on an established connection. */
  ghost function ExpectedAfter(c: Conn, e: Event): u64 {
    if e.OnData? then Reorder.Pushed(c.window, e.n, e.payload).0.expected else c.window.expected
  }

  /** A reset of `cid` was received or sent in this step. */
  ghost predicate ResetIn(s: State, e: Event, s': State, cid: u32) {
    e == OnRst(cid) || s'.rsts == s.rsts + [cid]
  }

  lemma DataEnds(s: State, cid: u32, n: u64, payload: Bytes, accepts: nat -> bool, ks: seq<u32>)
    requires cid in s.conns && cid !in DataOnConn(s, cid, n, payload, accepts).conns
    ensures var e := OnData(cid, n, payload, accepts, ks);
            || ResetIn(s, e, DataOnConn(s, cid, n, payload, accepts), cid)
            || BothWaysDone(s.conns[cid], e, ExpectedAfter(s.conns[cid], e))
  {
    hide Receiver.Offer, Reorder.Pushed;
  }

  /** Every connection but that of `cid` is as it was. */
  ghost predicate OthersSame(s: State, s': State, cid: u32) {
    forall c :: c != cid ==>
      (c in s'.conns <==> c in s.conns) && (c in s.conns ==> s'.conns[c] == s.conns[c])
  }

  /** A step touches no connection but its own, and only a connect brings a new one. */
  lemma OthersUnchanged(s: State, e: Event, s': State)
    requires Inv(s) && Next(s, e, s')
    ensures if e.Tick? then s'.conns == s.conns else OthersSame(s, s', e.cid)
    ensures !e.Tick? && !e.Connected? && e.cid !in s.conns ==> e.cid !in s'.conns
  {
    hide DataStep, FinStep, MarkCancelled, SynBegin, SynConnected, EndHandshake, Evict, FinishIfDone, Reset, Budget;
    match e
    case OnData(cid, n, payload, accepts, ks) => DataElsewhere(s, cid, n, payload, accepts, ks, s');
    case OnFin(cid, n) => FinElsewhere(s, cid, n);
    case OnRst(cid) => PendingOnly(s, cid);
    case OnSyn(cid, valid) => SynBeginKeepsConns(s, cid, valid);
    case Connected(cid, offers) => SynConnectedElsewhere(s, cid, offers);
    case ConnectFailed(cid) => PendingOnly(s, cid);
    case ConnectCancelled(cid) => PendingOnly(s, cid);
    case StaleSweep(cid) => EvictFields(s, cid);
    case EgressEof(cid, finSent) =>
      FinishElsewhere(if finSent then s else SendRst(s, cid), cid, s.conns[cid].(eof := true));
    case EgressSendFailed(cid) => FinishElsewhere(s, cid, s.conns[cid]);
    case IdleSweep(cid) => FinishElsewhere(s, cid, s.conns[cid]);
    case _ =>
  }

  lemma PendingOnly(s: State, cid: u32)
    ensures MarkCancelled(s, cid).conns == s.conns && EndHandshake(s, cid).conns == s.conns
  {
  }

  lemma SynBeginKeepsConns(s: State, cid: u32, valid: bool)
    ensures SynBegin(s, cid, valid).conns == s.conns
  {
  }

  lemma FinElsewhere(s: State, cid: u32, n: u64)
    ensures OthersSame(s, FinStep(s, cid, n), cid)
    ensures cid !in s.conns ==> FinStep(s, cid, n).conns == s.conns
  {
    hide FinishIfDone, StartHalfClose, OthersSame;
    SameOthers(s, FinStep(s, cid, n), cid);
    if cid in s.conns {
      FinishElsewhere(s, cid, StartHalfClose(s.conns[cid], n));
    }
  }

  lemma DataElsewhere(s: State, cid: u32, n: u64, payload: Bytes, accepts: nat -> bool, ks: seq<u32>, s': State)
    requires Budget(s) && DataStep(s, cid, n, payload, accepts, ks, s')
    ensures OthersSame(s, s', cid) && (cid !in s.conns ==> s'.conns == s.conns)
  {
    hide Budget, EvictionRun, EvictAll, DataOnConn, OthersSame, Placed;
    SameOthers(s, s', cid);
    if cid in s.conns {
      DataOnConnElsewhere(s, cid, n, payload, accepts);
    } else if cid !in s.closed && (cid in s.pending || |s.pending| < MAX_PENDING_CIDS) {
      EvictionEffect(s, Exempt(s, cid), |payload|, ks);
      PlacedElsewhere(EvictAll(s, ks), cid, Data(n, payload), cid in s.pending);
    }
  }

  lemma SameOthers(s: State, s': State, cid: u32)
    ensures s'.conns == s.conns ==> OthersSame(s, s', cid)
  {
  }

  lemma PlacedElsewhere(s: State, cid: u32, m: Msg, queued: bool)
    ensures Placed(s, cid, m, queued).conns == s.conns
  {
  }

  lemma DataOnConnElsewhere(s: State, cid: u32, n: u64, payload: Bytes, accepts: nat -> bool)
    requires cid in s.conns
    ensures OthersSame(s, DataOnConn(s, cid, n, payload, accepts), cid)
  {
    hide Receiver.Offer, Reorder.Pushed, FinishIfDone, Reset;
    var c := s.conns[cid];
    var (w, r) := Reorder.Pushed(c.window, n, payload);
    var o := Receiver.Offer(Receiver.Reassembler, r.ready, 0, accepts);
    FinishElsewhere(s, cid, CloseWriteHalf(c.(window := w, output := c.output + o.accepted)));
  }

  lemma FinishElsewhere(s: State, cid: u32, c: Conn)
    ensures OthersSame(s, FinishIfDone(s, cid, c), cid) && OthersSame(s, Reset(s, cid), cid)
  {
    hide IsDone;
  }

  lemma SynConnectedElsewhere(s: State, cid: u32, offers: nat -> nat -> bool)
    ensures OthersSame(s, SynConnected(s, cid, offers), cid)
  {
    hide Replay, IsDone, StartHalfClose;
  }

  /** In every run, a connection leaves `conns` only in a step that receives or sends a reset for it,
      or when it is over in both directions. */
  lemma NoSilentEnd(states: seq<State>, events: seq<Event>, i: nat, cid: u32)
    requires IsRun(states, events) && i < |events| && cid in states[i].conns && cid !in states[i + 1].conns
    ensures var s, e := states[i], events[i];
            ResetIn(s, e, states[i + 1], cid) || BothWaysDone(s.conns[cid], e, ExpectedAfter(s.conns[cid], e))
  {
    var s, e, s' := states[i], events[i], states[i + 1];
    assert Next(s, e, s');
    RunInv(states, events, i);
    OthersUnchanged(s, e, s');
    EndsInOrder(s, e, s');
  }

  lemma EndsInOrder(s: State, e: Event, s': State)
    requires Inv(s) && Next(s, e, s') && !e.Tick? && e.cid in s.conns && e.cid !in s'.conns
    ensures ResetIn(s, e, s', e.cid) || BothWaysDone(s.conns[e.cid], e, ExpectedAfter(s.conns[e.cid], e))
  {
    hide Replay, DataOnConn, EvictionRun, Budget;
    if e.OnData? {
      DataEnds(s, e.cid, e.n, e.payload, e.accepts, e.evicted);
    }
  }
}
