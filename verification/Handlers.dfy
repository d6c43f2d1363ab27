/** What each event does to the reassembler's tables, read off the tables alone: when a frame is
    queued, when a handshake starts and what it ends in, who is reset, and who is told. */
module Handlers {
  import opened Wire
  import opened Reassembler
  import PB = PendingBudget
  import L = Lifecycle
  import N = NoSilentLoss
  import Reorder
  import R = Receiver

  /** `s'` follows `s` by event `e` in some run. */
  ghost predicate StepOf(states: seq<State>, events: seq<Event>, i: nat) {
    IsRun(states, events) && i < |events|
  }

  /** The resets sent in one step. */
  function Sent(s: State, s': State): seq<u32> {
    if |s.rsts| <= |s'.rsts| then s'.rsts[|s.rsts|..] else []
  }

  /** The handshake of `cid`, if its queue entry carries a Notify, has been woken. */
  ghost predicate Woken(s: State, s': State, cid: u32) {
    cid in s.pending && s.pending[cid].hasCancel && cid in s.handshaking ==>
      cid in s'.handshaking && s'.handshaking[cid].notified
  }

  /** The connection is given up on the spot: tombstone, reset, and the handshake told. */
  ghost predicate FailedFast(s: State, s': State, cid: u32) {
    && cid in s'.closed && s'.closed[cid] == s.now && cid !in s'.conns
    && cid in Sent(s, s')
    && Woken(s, s', cid)
  }

  // ----- RST

  /** An RST tombstones its identifier whatever state it is in; a queued entry is cancelled and its
      handshake woken; an established connection goes.  Nothing is sent back. */
  lemma RstLaw(states: seq<State>, events: seq<Event>, i: nat, cid: u32)
    requires StepOf(states, events, i) && events[i] == OnRst(cid)
    ensures var s, s' := states[i], states[i + 1];
            && cid in s'.closed && s'.closed[cid] == s.now && cid !in s'.conns
            && (cid in s.pending ==> cid in s'.pending && s'.pending[cid].cancelled)
            && Woken(s, s', cid)
            && s'.rsts == s.rsts
  {
    L.RunInv(states, events, i);
    assert Next(states[i], events[i], states[i + 1]);
  }

  /** An RST that arrives while the egress connect is in flight keeps the connection from being
      established, however long the connect takes. */
  lemma RstBeatsConnect(states: seq<State>, events: seq<Event>, cid: u32, i: nat, j: nat)
    requires IsRun(states, events) && i < j < |events| && events[i] == OnRst(cid)
    requires forall k :: i < k <= j ==> cid in states[k].handshaking
    ensures cid !in states[j + 1].conns
  {
    hide Next;
    RstLaw(states, events, i, cid);
    L.ResetDuringConnectWins(states, events, cid, i + 1, j);
  }

  // ----- losing a queue

  /** The events that may take an entry's frames over: its own SYN handler's. */
  predicate OwnSyn(e: Event, cid: u32) {
    (e.OnSyn? || e.Connected? || e.ConnectFailed? || e.ConnectCancelled?) && e.cid == cid
  }

  lemma EvictWakes(s: State, k: u32, c: u32)
    requires c in s.pending && k in s.pending
    ensures var t := Evict(s, k);
            && (c == k ==> Woken(s, t, c))
            && (c != k ==> c in t.pending && t.pending[c] == s.pending[c])
            && (c in s.handshaking && s.handshaking[c].notified ==> c in t.handshaking && t.handshaking[c].notified)
            && (c in s.handshaking ==> c in t.handshaking)
  {
  }

  /** Every entry of an eviction run has its handshake woken. */
  lemma {:induction false} EvictAllWakes(s: State, exclude: set<u32>, need: nat, ks: seq<u32>, c: u32)
    requires EvictionRun(s, exclude, need, ks) && c in ks && c in s.pending
    ensures Woken(s, EvictAll(s, ks), c)
    decreases |ks|
  {
    hide Evict;
    var t := Evict(s, ks[0]);
    EvictWakes(s, ks[0], c);
    PB.EvictFields(s, ks[0]);
    if c == ks[0] {
      StaysWoken(t, exclude, need, ks[1..], c);
    } else {
      EvictAllWakes(t, exclude, need, ks[1..], c);
    }
  }

  lemma {:induction false} StaysWoken(s: State, exclude: set<u32>, need: nat, ks: seq<u32>, c: u32)
    requires EvictionRun(s, exclude, need, ks)
    ensures c in s.handshaking && s.handshaking[c].notified ==>
              c in EvictAll(s, ks).handshaking && EvictAll(s, ks).handshaking[c].notified
    decreases |ks|
  {
    if ks != [] {
      EvictKeepsWoken(s, ks[0], c);
      hide Evict;
      StaysWoken(Evict(s, ks[0]), exclude, need, ks[1..], c);
    }
  }

  lemma EvictKeepsWoken(s: State, k: u32, c: u32)
    ensures c in s.handshaking && s.handshaking[c].notified ==>
              c in Evict(s, k).handshaking && Evict(s, k).handshaking[c].notified
  {
  }

  /** Whatever the eviction loop removed has failed fast. */
  lemma EvictedFailFast(s: State, cid: u32, need: nat, ks: seq<u32>, c: u32)
    requires PB.Budget(s) && L.Apart(s) && EvictionRun(s, Exempt(s, cid), need, ks)
    requires c in s.pending && c !in EvictAll(s, ks).pending
    ensures FailedFast(s, EvictAll(s, ks), c)
  {
    hide PB.Budget, EvictionRun, EvictAll;
    PB.EvictionEffect(s, Exempt(s, cid), need, ks);
    assert c in ks;
    EvictAllWakes(s, Exempt(s, cid), need, ks, c);
    assert EvictAll(s, ks).rsts[|s.rsts|..] == ks;
  }

  /** Everything recorded about `c` is the same in both states. */
  ghost predicate SameAbout(s: State, t: State, c: u32) {
    && (c in t.pending <==> c in s.pending) && (c in s.pending ==> t.pending[c] == s.pending[c])
    && (c in t.closed <==> c in s.closed) && (c in s.closed ==> t.closed[c] == s.closed[c])
    && (c in t.handshaking <==> c in s.handshaking)
    && (c in s.handshaking ==> t.handshaking[c] == s.handshaking[c])
  }

  lemma FailElsewhere(s: State, cid: u32, c: u32)
    requires c != cid
    ensures SameAbout(s, FailPending(s, cid), c)
    ensures FailPending(s, cid).conns == s.conns && FailPending(s, cid).rsts == s.rsts + [cid]
  {
  }

  lemma EnqueueElsewhere(s: State, cid: u32, m: Msg, c: u32)
    requires c != cid
    ensures cid in s.pending ==> SameAbout(s, Enqueue(s, cid, m), c) && Enqueue(s, cid, m).conns == s.conns
    ensures SameAbout(s, Enqueue(NewEntry(s, cid), cid, m), c) && Enqueue(NewEntry(s, cid), cid, m).conns == s.conns
    ensures cid in s.pending ==> Enqueue(s, cid, m).rsts == s.rsts
    ensures Enqueue(NewEntry(s, cid), cid, m).rsts == s.rsts
  {
  }

  lemma PlacedElsewhere(s: State, cid: u32, m: Msg, queued: bool, c: u32)
    requires c != cid
    ensures var t := Placed(s, cid, m, queued); SameAbout(s, t, c) && t.conns == s.conns && s.rsts <= t.rsts
  {
    hide SameAbout, FailPending, Enqueue, NewEntry;
    FailElsewhere(s, cid, c);
    EnqueueElsewhere(s, cid, m, c);
    assert SameAbout(s, s, c) by {
      SameItself(s, c);
    }
  }

  lemma SameItself(s: State, c: u32)
    ensures SameAbout(s, s, c)
  {
  }

  lemma DataDropsFailFast(s: State, e: Event, s': State, c: u32)
    requires L.Inv(s) && e.OnData? && Next(s, e, s')
    requires c in s.pending && c !in s'.pending
    ensures FailedFast(s, s', c)
  {
    hide PB.Budget, EvictionRun, EvictAll, Placed, FailPending, L.Timely;
    if e.cid in s.conns {
      PB.DataOnConnFrame(s, e.cid, e.n, e.payload, e.accepts);
    } else if e.cid !in s.closed {
      if e.cid !in s.pending && |s.pending| >= MAX_PENDING_CIDS {
        FailKeepsQueues(s, e.cid);
      } else {
        var t := EvictAll(s, e.evicted);
        var m := Data(e.n, e.payload);
        PB.EvictionEffect(s, Exempt(s, e.cid), |e.payload|, e.evicted);
        if c == e.cid {
          assert !Candidate(s, Exempt(s, e.cid), c);
          PlacedKeepsOwn(t, e.cid, m, true);
        } else {
          PlacedElsewhere(t, e.cid, m, e.cid in s.pending, c);
          EvictedFailFast(s, e.cid, |e.payload|, e.evicted, c);
          SentGrows(s, t, s', c);
        }
      }
    }
  }

  lemma SentGrows(s: State, t: State, u: State, c: u32)
    requires s.rsts <= t.rsts && t.rsts <= u.rsts && c in Sent(s, t)
    ensures c in Sent(s, u)
  {
    var i :| 0 <= i < |Sent(s, t)| && Sent(s, t)[i] == c;
    assert Sent(s, u)[i] == c;
  }

  lemma FailKeepsQueues(s: State, cid: u32)
    ensures FailPending(s, cid).pending.Keys == s.pending.Keys
  {
  }

  lemma PlacedKeepsOwn(s: State, cid: u32, m: Msg, queued: bool)
    requires cid in s.pending
    ensures cid in Placed(s, cid, m, queued).pending
  {
  }

  /** A queue is given up, by eviction or by the stale sweep, only with a tombstone, a reset to the
      splitter and a wakeup for the handshake that would have drained it. */
  lemma LostQueueFailsFast(states: seq<State>, events: seq<Event>, i: nat, c: u32)
    requires StepOf(states, events, i) && !OwnSyn(events[i], c)
    requires c in states[i].pending && c !in states[i + 1].pending
    ensures FailedFast(states[i], states[i + 1], c)
  {
    var s, e, s' := states[i], events[i], states[i + 1];
    L.RunInv(states, events, i);
    assert Next(s, e, s');
    if e.OnData? {
      DataDropsFailFast(s, e, s', c);
    } else {
      OtherDropsFailFast(s, e, s', c);
    }
  }

  lemma OtherDropsFailFast(s: State, e: Event, s': State, c: u32)
    requires L.Apart(s) && !e.OnData? && Next(s, e, s') && !OwnSyn(e, c)
    requires c in s.pending && c !in s'.pending
    ensures FailedFast(s, s', c)
  {
    hide FinStep, SynConnected, MarkCancelled, FinishIfDone, EndHandshake, Evict, SynBegin;
    match e
    case OnFin(cid, n) => FinKeepsQueues(s, cid, n);
    case OnRst(cid) => RstKeepsQueues(s, cid);
    case StaleSweep(cid) =>
      PB.EvictFields(s, cid);
      EvictWakes(s, cid, c);
    case Connected(cid, offers) =>
      PB.SynConnectedFrame(s, cid, offers);
      EndKeepsOthers(s, cid, c);
    case ConnectFailed(cid) => EndKeepsOthers(s, cid, c);
    case ConnectCancelled(cid) => EndKeepsOthers(s, cid, c);
    case OnSyn(cid, valid) => SynKeepsOthers(s, cid, valid, c);
    case EgressEof(cid, finSent) => FinishKeepsQueues(s, cid, s.conns[cid].(eof := true), finSent);
    case _ =>
  }

  lemma RstKeepsQueues(s: State, cid: u32)
    ensures MarkCancelled(s, cid).pending.Keys == s.pending.Keys
  {
  }

  lemma FinishKeepsQueues(s: State, cid: u32, c: Conn, finSent: bool)
    ensures FinishIfDone(if finSent then s else SendRst(s, cid), cid, c).pending == s.pending
  {
  }

  lemma FinKeepsQueues(s: State, cid: u32, n: u64)
    ensures s.pending.Keys <= FinStep(s, cid, n).pending.Keys
  {
    hide IsDone, StartHalfClose, FailPending;
    FailKeepsQueues(s, cid);
  }

  lemma EndKeepsOthers(s: State, cid: u32, c: u32)
    ensures c != cid && c in s.pending ==> c in EndHandshake(s, cid).pending
  {
  }

  lemma SynKeepsOthers(s: State, cid: u32, valid: bool, c: u32)
    ensures c != cid && c in s.pending ==> c in SynBegin(s, cid, valid).pending
  {
  }

  // ----- frames ahead of their SYN

  /** The caps on entries and on frames per entry leave room for one more frame. */
  predicate CapsAllow(s: State, cid: u32) {
    if cid in s.pending then |s.pending[cid].frames| < MAX_PENDING_FRAMES_PER_CID
    else |s.pending| < MAX_PENDING_CIDS
  }

  function QueueOf(s: State, cid: u32): seq<Msg> {
    if cid in s.pending then s.pending[cid].frames else []
  }

  /** The frame is at the end of its queue and nothing else about `cid` has changed. */
  ghost predicate QueuedLast(s: State, s': State, cid: u32, m: Msg) {
    && cid in s'.pending && s'.pending[cid].frames == QueueOf(s, cid) + [m]
    && (cid in s.pending ==>
          && s'.pending[cid].cancelled == s.pending[cid].cancelled
          && s'.pending[cid].hasCancel == s.pending[cid].hasCancel
          && s'.pending[cid].since == s.pending[cid].since)
    && (cid !in s.pending ==> !s'.pending[cid].cancelled && s'.pending[cid].since == s.now)
    && cid !in s'.closed && s'.conns == s.conns
    && cid !in Sent(s, s')
  }

  /** The frame is dropped and its connection given up on the spot. */
  ghost predicate DroppedFast(s: State, s': State, cid: u32) {
    && FailedFast(s, s', cid)
    && QueueOf(s', cid) == QueueOf(s, cid)
    && (cid in s.pending ==> cid in s'.pending && s'.pending[cid].cancelled)
  }

  lemma PlacedLaw(s: State, cid: u32, m: Msg)
    requires Fits(s, MsgBytes(m)) && (cid !in s.pending || |s.pending[cid].frames| < MAX_PENDING_FRAMES_PER_CID)
    requires cid !in s.closed
    ensures QueuedLast(s, Placed(s, cid, m, cid in s.pending), cid, m)
    ensures Placed(s, cid, m, cid in s.pending).rsts == s.rsts
    ensures Placed(s, cid, m, cid in s.pending).pending.Keys == s.pending.Keys + {cid}
  {
    assert [] + [m] == [m];
  }

  lemma FailPendingLaw(s: State, cid: u32)
    requires cid !in s.conns
    ensures DroppedFast(s, FailPending(s, cid), cid)
    ensures Sent(s, FailPending(s, cid)) == [cid] && FailPending(s, cid).rsts == s.rsts + [cid]
  {
    assert (s.rsts + [cid])[|s.rsts|..] == [cid];
  }

  lemma OverCapLaw(s: State, cid: u32, m: Msg)
    requires cid in s.pending && cid !in s.conns && !(|s.pending[cid].frames| < MAX_PENDING_FRAMES_PER_CID)
    ensures DroppedFast(s, Placed(s, cid, m, true), cid) && s.rsts <= Placed(s, cid, m, true).rsts
  {
    hide FailPending, DroppedFast;
    FailPendingLaw(s, cid);
  }

  /** What eviction leaves of the identifier whose frame is placed. */
  lemma EvictionSpares(s: State, cid: u32, need: nat, ks: seq<u32>)
    requires PB.Budget(s) && EvictionRun(s, Exempt(s, cid), need, ks) && cid !in s.closed && need <= MAX_PAYLOAD
    ensures var t := EvictAll(s, ks);
            && (cid in t.pending <==> cid in s.pending) && (cid in s.pending ==> t.pending[cid] == s.pending[cid])
            && cid !in t.closed && t.conns == s.conns && t.now == s.now && t.rsts == s.rsts + ks && cid !in ks
            && Fits(t, need)
            && (cid in s.handshaking <==> cid in t.handshaking)
  {
    hide PB.Budget, EvictionRun, EvictAll;
    PB.EvictionEffect(s, Exempt(s, cid), need, ks);
    PB.ReservationSucceeds(s, Exempt(s, cid), need, ks);
    assert !Candidate(s, Exempt(s, cid), cid);
  }

  lemma DataQueuedLaw(s: State, e: Event, s': State)
    requires L.Inv(s) && e.OnData? && Next(s, e, s') && e.cid !in s.conns && e.cid !in s.closed
    ensures if CapsAllow(s, e.cid) then QueuedLast(s, s', e.cid, Data(e.n, e.payload)) else DroppedFast(s, s', e.cid)
    ensures s.pendingBytes + |e.payload| <= MAX_PENDING_BYTES ==>
              s'.pending.Keys - {e.cid} == s.pending.Keys - {e.cid}
  {
    hide PB.Budget, EvictAll, Placed, FailPending, L.Timely, L.Apart;
    var cid, ks, m := e.cid, e.evicted, Data(e.n, e.payload);
    if cid !in s.pending && |s.pending| >= MAX_PENDING_CIDS {
      FailPendingLaw(s, cid);
      FailKeepsQueues(s, cid);
    } else {
      EvictionSpares(s, cid, |e.payload|, ks);
      var t := EvictAll(s, ks);
      assert s.pendingBytes + |e.payload| <= MAX_PENDING_BYTES ==> ks == [] && t == s by {
        assert ks == [] ==> EvictAll(s, ks) == s by { NothingEvicted(s); }
      }
      hide EvictionRun;
      assert s' == Placed(t, cid, m, cid in t.pending);
      if CapsAllow(s, cid) {
        PlacedLaw(t, cid, m);
        QueuedAfterEviction(s, t, s', cid, m, ks);
      } else {
        OverCapLaw(t, cid, m);
        DroppedAfterEviction(s, t, s', cid, ks);
        PlacedKeepsKeys(t, cid, m);
      }
    }
  }

  lemma NothingEvicted(s: State)
    ensures EvictAll(s, []) == s
  {
  }

  lemma PlacedKeepsKeys(s: State, cid: u32, m: Msg)
    requires cid in s.pending
    ensures Placed(s, cid, m, true).pending.Keys == s.pending.Keys
  {
  }

  lemma QueuedAfterEviction(s: State, t: State, s': State, cid: u32, m: Msg, ks: seq<u32>)
    requires QueuedLast(t, s', cid, m) && s'.rsts == t.rsts == s.rsts + ks && cid !in ks
    requires (cid in t.pending <==> cid in s.pending) && (cid in s.pending ==> t.pending[cid] == s.pending[cid])
    requires t.conns == s.conns && t.now == s.now
    ensures QueuedLast(s, s', cid, m)
  {
    assert Sent(s, s') == ks;
  }

  lemma DroppedAfterEviction(s: State, t: State, s': State, cid: u32, ks: seq<u32>)
    requires DroppedFast(t, s', cid) && t.rsts == s.rsts + ks && t.rsts <= s'.rsts
    requires (cid in t.pending <==> cid in s.pending) && (cid in s.pending ==> t.pending[cid] == s.pending[cid])
    requires (cid in s.handshaking <==> cid in t.handshaking) && t.now == s.now
    ensures DroppedFast(s, s', cid)
  {
    assert s'.rsts[|s.rsts|..] == ks + s'.rsts[|t.rsts|..];
  }

  lemma FinQueuedLaw(s: State, e: Event, s': State)
    requires e.OnFin? && Next(s, e, s') && e.cid !in s.conns && e.cid !in s.closed
    ensures if CapsAllow(s, e.cid) then QueuedLast(s, s', e.cid, Fin(e.n)) else DroppedFast(s, s', e.cid)
    ensures s'.pending.Keys - {e.cid} == s.pending.Keys - {e.cid}
  {
    hide FailPending, Enqueue, NewEntry, DroppedFast, QueuedLast;
    FailPendingLaw(s, e.cid);
    FailKeepsQueues(s, e.cid);
    if CapsAllow(s, e.cid) {
      EnqueueLaw(s, e.cid, Fin(e.n));
    }
  }

  lemma EnqueueLaw(s: State, cid: u32, m: Msg)
    requires cid !in s.closed
    ensures cid in s.pending ==>
              QueuedLast(s, Enqueue(s, cid, m), cid, m) && Enqueue(s, cid, m).pending.Keys == s.pending.Keys
    ensures cid !in s.pending ==>
              var t := Enqueue(NewEntry(s, cid), cid, m);
              QueuedLast(s, t, cid, m) && t.pending.Keys == s.pending.Keys + {cid}
  {
    assert [] + [m] == [m];
  }

  /** A DATA or FIN frame ahead of its SYN is queued, last in its queue, exactly when the caps allow
      it; otherwise its connection fails fast.  No other queue goes while the bytes fit. */
  lemma QueuedIffCapsAllow(states: seq<State>, events: seq<Event>, i: nat, cid: u32, m: Msg)
    requires StepOf(states, events, i) && N.Arrives(events[i], cid, m)
    requires cid !in states[i].conns && cid !in states[i].closed
    ensures var s, s' := states[i], states[i + 1];
            && (if CapsAllow(s, cid) then QueuedLast(s, s', cid, m) else DroppedFast(s, s', cid))
            && (s.pendingBytes + MsgBytes(m) <= MAX_PENDING_BYTES ==>
                  s'.pending.Keys - {cid} == s.pending.Keys - {cid})
  {
    hide QueuedLast, DroppedFast, CapsAllow, L.Inv;
    L.RunInv(states, events, i);
    assert Next(states[i], events[i], states[i + 1]);
    hide Next;
    if events[i].OnData? {
      DataQueuedLaw(states[i], events[i], states[i + 1]);
    } else {
      FinQueuedLaw(states[i], events[i], states[i + 1]);
    }
  }

  /** A late DATA frame is answered with a reset and a late FIN with nothing; neither changes a
      table. */
  lemma LateFrameLaw(states: seq<State>, events: seq<Event>, i: nat, cid: u32, m: Msg)
    requires StepOf(states, events, i) && N.Arrives(events[i], cid, m) && cid in states[i].closed
    ensures states[i + 1] == states[i].(rsts := states[i].rsts + if m.Data? then [cid] else [])
  {
    hide DataOnConn, FinishIfDone;
    L.RunInv(states, events, i);
    assert Next(states[i], events[i], states[i + 1]);
    assert states[i].rsts + [] == states[i].rsts;
  }

  // ----- SYN

  /** A handshake for `cid` starts: registered, with a Notify in an entry that keeps the frames queued
      so far. */
  ghost predicate HandshakeStarts(s: State, s': State, cid: u32) {
    && cid in s'.handshaking && s'.handshaking[cid] == Handshake(s.now, false)
    && cid in s'.pending && s'.pending[cid].hasCancel && QueueOf(s', cid) == QueueOf(s, cid)
    && (s'.pending[cid].cancelled <==> cid in s.pending && s.pending[cid].cancelled)
    && cid !in s'.closed && s'.rsts == s.rsts && s'.conns == s.conns
  }

  /** A SYN starts a handshake exactly when its identifier is new to the table and its target is
      valid; a tombstoned one is dropped, an invalid one reset, a second one ignored. */
  lemma SynLaw(states: seq<State>, events: seq<Event>, i: nat, cid: u32, valid: bool)
    requires StepOf(states, events, i) && events[i] == OnSyn(cid, valid)
    ensures var s, s' := states[i], states[i + 1];
            if cid in s.conns || cid in s.handshaking then s' == s
            else if cid in s.closed then
              cid !in s'.pending && cid !in s'.handshaking && s'.closed == s.closed && s'.rsts == s.rsts
            else if !valid then
              && cid !in s'.pending && cid !in s'.handshaking
              && cid in s'.closed && s'.closed[cid] == s.now && Sent(s, s') == [cid]
            else HandshakeStarts(s, s', cid)
  {
    assert Next(states[i], events[i], states[i + 1]);
    if cid !in states[i].conns && cid !in states[i].handshaking {
      SynStep(states[i], cid, valid);
    }
  }

  lemma SynStep(s: State, cid: u32, valid: bool)
    requires cid !in s.conns && cid !in s.handshaking
    ensures var s' := SynBegin(s, cid, valid);
            if cid in s.closed then
              cid !in s'.pending && cid !in s'.handshaking && s'.closed == s.closed && s'.rsts == s.rsts
            else if !valid then
              && cid !in s'.pending && cid !in s'.handshaking
              && cid in s'.closed && s'.closed[cid] == s.now && s'.rsts == s.rsts + [cid]
            else HandshakeStarts(s, s', cid)
  {
  }

  // ----- the end of a connect

  /** The handshake and its queue are over. */
  ghost predicate HandshakeOver(s: State, s': State, cid: u32) {
    cid !in s'.handshaking && cid !in s'.pending
  }

  /** Given up while connecting: tombstoned, and reset if the splitter has yet to be told. */
  ghost predicate GivenUp(s: State, s': State, cid: u32, tell: bool) {
    && HandshakeOver(s, s', cid) && cid !in s'.conns
    && cid in s'.closed && s'.closed[cid] == s.now
    && Sent(s, s') == if tell then [cid] else []
  }

  lemma EndLaw(s: State, cid: u32)
    ensures var t := EndHandshake(s, cid);
            && HandshakeOver(s, t, cid) && t.conns == s.conns && t.closed == s.closed && t.rsts == s.rsts
            && t.now == s.now && t.limit == s.limit
  {
  }

  /** A failed or timed-out connect resets the connection; one cancelled by an RST only tombstones
      it. */
  lemma ConnectLostLaw(states: seq<State>, events: seq<Event>, i: nat, cid: u32)
    requires StepOf(states, events, i) && (events[i] == ConnectFailed(cid) || events[i] == ConnectCancelled(cid))
    ensures GivenUp(states[i], states[i + 1], cid, events[i].ConnectFailed?)
  {
    hide EndHandshake, Replay;
    L.RunInv(states, events, i);
    assert Next(states[i], events[i], states[i + 1]);
    EndLaw(states[i], cid);
  }

  /** The window of `c` after the DATA frame `m`, and whether that frame breaks the connection: it
      overflows the window, or the egress channel refuses a chunk it makes ready. */
  ghost predicate Breaks(w: Reorder.Window, n: u64, payload: Bytes, accepts: nat -> bool) {
    var r := Reorder.Pushed(w, n, payload).1;
    r.overflow || exists j :: 0 <= j < |r.ready| && !accepts(j)
  }

  lemma BreaksIsReset(side: R.Side, w: Reorder.Window, output: seq<Bytes>, n: u64, payload: Bytes, accepts: nat -> bool)
    ensures var p, r := Reorder.Pushed(w, n, payload), R.OnData(side, w, output, n, payload, accepts);
            && (r.reset <==> Breaks(w, n, payload, accepts))
            && (!r.reset ==> r.window == p.0 && r.output == output + p.1.ready)
  {
    hide R.Offer;
    var r := Reorder.Pushed(w, n, payload).1;
    R.OfferFailsIff(side, r.ready, 0, accepts);
    assert r.ready[0..] == r.ready;
    RefusedIsEmpty(w, n, payload);
    assert output + [] == output;
  }

  lemma RefusedIsEmpty(w: Reorder.Window, n: u64, payload: Bytes)
    ensures var (w', r) := Reorder.Pushed(w, n, payload);
            && (!r.accepted ==> w' == w && r.ready == [])
            && (r.accepted ==> !r.overflow)
  {
  }

  /** A replay stops at frame i: everything before it went in, and it breaks the connection. */
  ghost predicate StopsAt(c: Conn, frames: seq<Msg>, offers: nat -> nat -> bool, i: nat) {
    && i < |frames| && frames[i].Data? && !Replay(c, frames[..i], offers).failed
    && Breaks(Replay(c, frames[..i], offers).conn.window, frames[i].s, frames[i].payload, offers(i))
  }

  /** A replay fails exactly when one of the queued frames breaks the connection. */
  lemma {:induction false} ReplayFailsIff(c: Conn, frames: seq<Msg>, offers: nat -> nat -> bool)
    ensures Replay(c, frames, offers).failed <==> exists i: nat :: StopsAt(c, frames, offers, i)
  {
    hide Breaks, R.OnData;
    if frames != [] {
      var n := |frames| - 1;
      var front := frames[..n];
      ReplayFailsIff(c, front, offers);
      forall i: nat | i < n
        ensures StopsAt(c, front, offers, i) <==> StopsAt(c, frames, offers, i)
      {
        assert front[..i] == frames[..i];
      }
      var p := Replay(c, front, offers);
      if frames[n].Data? {
        BreaksIsReset(R.Reassembler, p.conn.window, p.conn.output, frames[n].s, frames[n].payload, offers(n));
      }
      assert StopsAt(c, frames, offers, n) ==> Replay(c, frames, offers).failed;
      if Replay(c, frames, offers).failed && !p.failed {
        assert StopsAt(c, frames, offers, n);
      }
    }
  }

  /** The last FIN among queued frames, if any. */
  ghost predicate LastFin(frames: seq<Msg>, fin: seq<u64>) {
    if forall i :: 0 <= i < |frames| ==> !frames[i].Fin? then fin == []
    else exists i :: 0 <= i < |frames| && frames[i].Fin? && fin == [frames[i].s]
                     && forall j :: i < j < |frames| ==> !frames[j].Fin?
  }

  lemma {:induction false} ReplayEnds(c: Conn, frames: seq<Msg>, offers: nat -> nat -> bool)
    requires !Replay(c, frames, offers).failed
    ensures var p := Replay(c, frames, offers);
            && LastFin(frames, p.fin)
            && p.conn.finReceived == c.finReceived && p.conn.eof == c.eof && p.conn.hc == c.hc
  {
    if frames != [] {
      hide R.OnData;
      var n := |frames| - 1;
      var front := frames[..n];
      ReplayEnds(c, front, offers);
      var p := Replay(c, front, offers);
      LastFinStep(frames, p.fin);
    }
  }

  lemma LastFinStep(frames: seq<Msg>, fin: seq<u64>)
    requires frames != [] && LastFin(frames[..|frames| - 1], fin)
    ensures var last := frames[|frames| - 1]; LastFin(frames, if last.Fin? then [last.s] else fin)
  {
    var n := |frames| - 1;
    var front := frames[..n];
    assert forall i :: 0 <= i < n ==> frames[i] == front[i];
    if !frames[n].Fin? && exists i :: 0 <= i < n && front[i].Fin? {
      var i :| 0 <= i < n && front[i].Fin? && fin == [front[i].s] && forall j :: i < j < n ==> !front[j].Fin?;
      assert frames[i].Fin? && forall j :: i < j < |frames| ==> !frames[j].Fin?;
    }
  }

  /** The connection is up, with the queued frames absorbed. */
  ghost predicate Established(s: State, cid: u32, frames: seq<Msg>) {
    && cid in s.conns && !s.conns[cid].eof
    && (forall m :: m in frames && m.Data? ==> m.s == 0 || s.conns[cid].window.Has(m.s))
    && LastFin(frames, if s.conns[cid].finReceived then [s.conns[cid].finSeq] else [])
  }

  /** A connect that succeeds establishes the connection exactly when nothing tombstoned or cancelled
      it meanwhile and no queued frame breaks it: with its queue absorbed and, if a FIN was queued,
      half-closing at the last one's number.  A broken queue resets it. */
  lemma ConnectedLaw(states: seq<State>, events: seq<Event>, i: nat, cid: u32, offers: nat -> nat -> bool)
    requires StepOf(states, events, i) && events[i] == Connected(cid, offers)
    ensures var s, s' := states[i], states[i + 1];
            var frames := QueueOf(s, cid);
            if cid in s.closed then
              HandshakeOver(s, s', cid) && cid !in s'.conns && s'.closed == s.closed && s'.rsts == s.rsts
            else if cid in s.pending && s.pending[cid].cancelled then GivenUp(s, s', cid, false)
            else if exists k: nat :: StopsAt(FreshConn(s), frames, offers, k) then GivenUp(s, s', cid, true)
            else
              HandshakeOver(s, s', cid) && cid !in s'.closed && s'.rsts == s.rsts && Established(s', cid, frames)
  {
    var s, s' := states[i], states[i + 1];
    L.RunInv(states, events, i);
    N.RunKeeps(states, events, i);
    assert Next(s, events[i], s');
    hide Next, Breaks, StopsAt, LastFin, EndHandshake, Replay, N.ConnOk;
    EndLaw(s, cid);
    var frames, c0 := QueueOf(s, cid), FreshConn(s);
    ReplayFailsIff(c0, frames, offers);
    if cid !in s.closed && !(cid in s.pending && s.pending[cid].cancelled) {
      ConnectedCases(s, s', cid, offers);
    } else {
      assert s' == SynConnected(s, cid, offers) by {
        ConnectedIs(s, cid, offers, s');
      }
    }
  }

  lemma ConnectedIs(s: State, cid: u32, offers: nat -> nat -> bool, s': State)
    requires Next(s, Connected(cid, offers), s')
    ensures s' == SynConnected(s, cid, offers) && cid in s.handshaking
  {
  }

  lemma EmptyReplay(c: Conn, offers: nat -> nat -> bool)
    ensures Replay(c, [], offers) == Replayed(c, [], false) && LastFin([], [])
  {
  }

  lemma ConnectedCases(s: State, s': State, cid: u32, offers: nat -> nat -> bool)
    requires N.ConnsOk(s) && Next(s, Connected(cid, offers), s')
    requires cid !in s.conns && cid !in s.closed && !(cid in s.pending && s.pending[cid].cancelled)
    ensures var p := Replay(FreshConn(s), QueueOf(s, cid), offers);
            if p.failed then GivenUp(s, s', cid, true)
            else
              && HandshakeOver(s, s', cid) && cid !in s'.closed && s'.rsts == s.rsts
              && Established(s', cid, QueueOf(s, cid))
  {
    ConnectedIs(s, cid, offers, s');
    hide Next, LastFin, EndHandshake, Replay, N.ConnOk, N.ConnsOk, StartHalfClose, IsDone;
    EndLaw(s, cid);
    N.FreshOk(s);
    EmptyReplay(FreshConn(s), offers);
    if cid in s.pending {
      N.QueuedNumbers(s, cid);
    }
    var frames, c0 := QueueOf(s, cid), FreshConn(s);
    var p := Replay(c0, frames, offers);
    if p.failed {
      assert (s.rsts + [cid])[|s.rsts|..] == [cid];
    } else {
      ReplayEnds(c0, frames, offers);
      LastFinIsOne(frames, p.fin);
      N.ReplayTakesAll(c0, frames, offers);
      HalfCloseFrame(p.conn, p.fin);
    }
  }

  lemma LastFinIsOne(frames: seq<Msg>, fin: seq<u64>)
    requires LastFin(frames, fin)
    ensures |fin| <= 1 && (fin != [] ==> fin == [fin[0]])
  {
  }

  lemma HalfCloseFrame(c: Conn, fin: seq<u64>)
    requires !c.finReceived && !c.eof
    ensures fin != [] ==> var d := StartHalfClose(c, fin[0]);
              d.finReceived && d.finSeq == fin[0] && d.window == c.window && !d.eof && !IsDone(d)
  {
  }

  // ----- frames and events of an established connection

  /** DATA for an established connection resets it exactly when it overflows the window or the egress
      channel refuses a chunk it makes ready.  Otherwise the chunks it makes ready, and nothing
      else, follow on the egress stream; the connection stays, unless both ways are done. */
  lemma EstablishedDataLaw(states: seq<State>, events: seq<Event>, i: nat, e: Event)
    requires StepOf(states, events, i) && e == events[i] && e.OnData? && e.cid in states[i].conns
    ensures var s, s', cid := states[i], states[i + 1], e.cid;
            var c := s.conns[cid];
            var (w, r) := Reorder.Pushed(c.window, e.n, e.payload);
            if Breaks(c.window, e.n, e.payload, e.accepts) then
              cid !in s'.conns && cid in s'.closed && s'.closed[cid] == s.now && Sent(s, s') == [cid]
            else
              && Sent(s, s') == []
              && (cid in s'.conns ==> s'.conns[cid].window == w && s'.conns[cid].output == c.output + r.ready)
              && (cid !in s'.conns ==> c.finReceived && c.eof && cid in s'.closed)
  {
    hide Reorder.Pushed, R.Offer, Breaks, IsDone, CloseWriteHalf;
    var s, s' := states[i], states[i + 1];
    assert Next(s, e, s');
    var c := s.conns[e.cid];
    BreaksIsReset(R.Reassembler, c.window, c.output, e.n, e.payload, e.accepts);
    RefusedIsEmpty(c.window, e.n, e.payload);
    assert (s.rsts + [e.cid])[|s.rsts|..] == [e.cid];
    assert c.output + [] == c.output;
    CloseKeeps(c.(window := Reorder.Pushed(c.window, e.n, e.payload).0,
                  output := c.output + Reorder.Pushed(c.window, e.n, e.payload).1.ready));
  }

  lemma CloseKeeps(c: Conn)
    ensures var d := CloseWriteHalf(c);
            && d.window == c.window && d.output == c.output && d.finReceived == c.finReceived
            && (IsDone(d) ==> c.finReceived && c.eof)
  {
  }

  /** The end of the egress stream is passed on as a FIN, or as a reset if no link took the FIN; a
      response that could not be sent, and an idle connection, end in a reset. */
  lemma EgressLaw(states: seq<State>, events: seq<Event>, i: nat, e: Event)
    requires StepOf(states, events, i) && e == events[i]
    requires e.EgressEof? || e.EgressSendFailed? || e.IdleSweep?
    ensures var s, s', cid := states[i], states[i + 1], e.cid;
            && Sent(s, s') == (if e.EgressEof? && e.finSent then [] else [cid])
            && (if e.EgressEof? then cid in s'.conns ==> s'.conns[cid] == s.conns[cid].(eof := true)
                else cid !in s'.conns && cid in s'.closed)
  {
    hide IsDone;
    var s := states[i];
    assert Next(s, e, states[i + 1]);
    assert (s.rsts + [e.cid])[|s.rsts|..] == [e.cid];
  }

  // ----- how long things live

  lemma PlacedKeepsTombstones(s: State, cid: u32, m: Msg, queued: bool)
    ensures s.closed.Keys <= Placed(s, cid, m, queued).closed.Keys
  {
  }

  lemma DataKeepsTombstones(s: State, e: Event, s': State)
    requires PB.Budget(s) && e.OnData? && Next(s, e, s')
    ensures s.closed.Keys <= s'.closed.Keys
  {
    hide PB.Budget, EvictionRun, EvictAll, Placed, FailPending, R.Offer, Reorder.Pushed, CloseWriteHalf, IsDone;
    if e.cid !in s.conns && e.cid !in s.closed {
      FailPendingLaw(s, e.cid);
      FailKeepsTombstones(s, e.cid);
      if e.cid in s.pending || |s.pending| < MAX_PENDING_CIDS {
        PB.EvictionEffect(s, Exempt(s, e.cid), |e.payload|, e.evicted);
        PlacedKeepsTombstones(EvictAll(s, e.evicted), e.cid, Data(e.n, e.payload), e.cid in s.pending);
      }
    }
  }

  lemma FailKeepsTombstones(s: State, cid: u32)
    ensures s.closed.Keys <= FailPending(s, cid).closed.Keys
    ensures MarkCancelled(s, cid).closed == s.closed
  {
  }

  lemma OtherKeepsTombstones(s: State, e: Event, s': State)
    requires !e.OnData? && !e.TombstoneExpires? && Next(s, e, s')
    ensures s.closed.Keys <= s'.closed.Keys
  {
    hide Replay, EndHandshake, Evict, SynBegin, FailPending, MarkCancelled, StartHalfClose, IsDone;
    match e
    case OnFin(cid, n) => FailKeepsTombstones(s, cid);
    case OnRst(cid) => FailKeepsTombstones(s, cid);
    case OnSyn(cid, valid) => SynKeepsTombstones(s, cid, valid);
    case Connected(cid, offers) => EndLaw(s, cid);
    case ConnectFailed(cid) => EndLaw(s, cid);
    case ConnectCancelled(cid) => EndLaw(s, cid);
    case StaleSweep(cid) => PB.EvictFields(s, cid);
    case _ =>
  }

  lemma SynKeepsTombstones(s: State, cid: u32, valid: bool)
    ensures s.closed.Keys <= SynBegin(s, cid, valid).closed.Keys
  {
  }

  /** A tombstone stands for at least a minute after it was last set. */
  lemma TombstoneLives(states: seq<State>, events: seq<Event>, i: nat, c: u32)
    requires StepOf(states, events, i) && c in states[i].closed && c !in states[i + 1].closed
    ensures states[i].now >= states[i].closed[c] + 60
  {
    var s, e, s' := states[i], events[i], states[i + 1];
    L.RunInv(states, events, i);
    assert Next(s, e, s');
    if e.OnData? {
      DataKeepsTombstones(s, e, s');
    } else if !e.TombstoneExpires? {
      OtherKeepsTombstones(s, e, s');
    }
  }

  /** A queue that waits for its SYN is swept only after half a minute. */
  lemma QueueLives(states: seq<State>, events: seq<Event>, i: nat, c: u32)
    requires StepOf(states, events, i) && events[i] == StaleSweep(c)
    ensures c in states[i].pending && states[i].now >= states[i].pending[c].since + 30
    ensures c !in states[i + 1].pending && FailedFast(states[i], states[i + 1], c)
  {
    assert Next(states[i], events[i], states[i + 1]);
    PB.EvictFields(states[i], c);
    LostQueueFailsFast(states, events, i, c);
  }
}
