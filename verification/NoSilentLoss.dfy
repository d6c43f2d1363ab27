/** Every DATA or FIN frame the reassembler ever handles is delivered, held, a duplicate, taken
    as the half-close, or dropped together with a tombstone for its connection. */
module NoSilentLoss {
  import opened Wire
  import opened Reorder
  import opened Reassembler
  import PB = PendingBudget
  import L = Lifecycle
  import R = Receiver
  import MapSums

  /** What a connection has taken in, number by number. */
  ghost function Taken(c: Conn): map<u64, Bytes> {
    map k: u64 | 1 <= k <= U64_MAX && c.window.Has(k) && (k < c.window.expected ==> k - 1 < |c.output|)
      :: if k < c.window.expected then c.output[k - 1] else c.window.pending[k]
  }

  /** The egress stream of a connection is exactly what its window has let through, in order. */
  ghost predicate ConnOk(c: Conn) {
    Represents(c.window, c.output, Taken(c)) && U64_MAX !in c.window.pending
  }

  ghost predicate ConnsOk(s: State) {
    && (forall c :: c in s.conns ==> ConnOk(s.conns[c]))
    && (forall c, m :: c in s.pending && m in s.pending[c].frames && m.Data? ==> m.s < U64_MAX)
  }

  // ----- the fate of a frame

  ghost predicate Queued(s: State, cid: u32, m: Msg) {
    cid in s.pending && m in s.pending[cid].frames
  }

  ghost predicate Held(s: State, cid: u32, m: Msg) {
    || Queued(s, cid, m)
    || (m.Data? && cid in s.conns
        && m.s in s.conns[cid].window.pending && s.conns[cid].window.pending[m.s] == m.payload)
  }

  /** The payload is the m.s-th chunk of the connection's egress stream. */
  ghost predicate HandedToEgress(s: State, cid: u32, m: Msg) {
    && m.Data? && cid in s.conns && 1 <= m.s < s.conns[cid].window.expected
    && m.s - 1 < |s.conns[cid].output| && s.conns[cid].output[m.s - 1] == m.payload
  }

  /** Another frame with the same number came first (numbering starts at 1). */
  ghost predicate Duplicate(s: State, cid: u32, m: Msg) {
    && m.Data? && cid in s.conns
    && (m.s == 0 || (s.conns[cid].window.Has(m.s) && !HandedToEgress(s, cid, m) && !Held(s, cid, m)))
  }

  /** The half-close waits for the number of this FIN. */
  ghost predicate HalfClosed(s: State, cid: u32, m: Msg) {
    m.Fin? && cid in s.conns && s.conns[cid].finReceived && s.conns[cid].finSeq == m.s
  }

  /** Another FIN, with another number, took effect. */
  ghost predicate SecondFin(s: State, cid: u32, m: Msg) {
    m.Fin? && cid in s.conns && s.conns[cid].finReceived && s.conns[cid].finSeq != m.s
  }

  ghost predicate Tombstoned(s: State, cid: u32) {
    cid in s.closed
  }

  ghost predicate Settled(s: State, cid: u32, m: Msg) {
    || HandedToEgress(s, cid, m) || Duplicate(s, cid, m)
    || HalfClosed(s, cid, m) || SecondFin(s, cid, m)
    || Tombstoned(s, cid)
  }

  ghost predicate Arrives(e: Event, cid: u32, m: Msg) {
    || (e.OnData? && e.cid == cid && m == Data(e.n, e.payload))
    || (e.OnFin? && e.cid == cid && m == Fin(e.n))
  }

  /** Reached: the frame went into the connection's own window or flags. */
  ghost predicate Absorbed(s: State, cid: u32, m: Msg) {
    && cid in s.conns
    && (m.Data? ==> m.s == 0 || s.conns[cid].window.Has(m.s))
    && (m.Fin? ==> s.conns[cid].finReceived)
  }

  ghost predicate Safe(s: State, cid: u32, m: Msg) {
    Absorbed(s, cid, m) || Queued(s, cid, m) || Tombstoned(s, cid)
  }

  lemma SafeIsAccounted(s: State, cid: u32, m: Msg)
    requires Safe(s, cid, m)
    ensures Held(s, cid, m) || Settled(s, cid, m)
  {
  }

  // ----- one connection

  lemma PushCases(w: Window, n: u64, payload: Bytes)
    ensures var (_, r) := Pushed(w, n, payload);
            && (r.accepted ==> !r.overflow)
            && (!r.accepted && !r.overflow ==> w.Has(n))
  {
    hide Drain, MapSums.MapSum;
  }

  /** Receiving keeps the connection sound and never forgets a number. */
  lemma ReceiveKeeps(c: Conn, n: u64, payload: Bytes, accepts: nat -> bool)
    requires ConnOk(c) && n < U64_MAX
    ensures var r := R.OnData(R.Reassembler, c.window, c.output, n, payload, accepts);
            !r.reset ==>
              && ConnOk(c.(window := r.window, output := r.output))
              && (forall k: u64 :: c.window.Has(k) ==> r.window.Has(k))
              && (n == 0 || r.window.Has(n))
              && Taken(c.(window := r.window, output := r.output)) == Learn(Taken(c), Arrival(n, payload))
  {
    hide Pushed, R.Offer;
    var (w, p) := Pushed(c.window, n, payload);
    PushCases(c.window, n, payload);
    if p.accepted {
      var a := Arrival(n, payload);
      PushRepresents(c.window, c.output, Taken(c), a);
      assert p.ready[0..] == p.ready;
      R.OfferIsPrefix(R.Reassembler, p.ready, 0, accepts);
      var c' := c.(window := w, output := c.output + p.ready);
      TakenIs(c', Learn(Taken(c), a));
      forall k: u64 | c.window.Has(k)
        ensures w.Has(k)
      {
        if k >= 1 {
          assert k in Taken(c);
        }
      }
    }
  }

  /** The received map is determined by window and output. */
  lemma TakenIs(c: Conn, m: map<u64, Bytes>)
    requires Represents(c.window, c.output, m) && 0 !in m && U64_MAX !in m
    ensures m == Taken(c) && ConnOk(c)
  {
    assert forall k :: k in m <==> k in Taken(c);
  }

  // ----- one step

  /** No frame that was in a connection or a queue slips out except under a tombstone. */
  ghost predicate Keeps(s: State, s': State) {
    && ConnsOk(s')
    && forall cid, m :: Absorbed(s, cid, m) || Queued(s, cid, m) ==> Safe(s', cid, m)
  }

  lemma KeepsCompose(s: State, t: State, u: State)
    requires Keeps(s, t) && Keeps(t, u) && t.closed.Keys <= u.closed.Keys
    ensures Keeps(s, u)
  {
    hide Absorbed, Queued, ConnsOk;
  }

  /** Same connections, same queued frames: nothing can have been lost. */
  lemma KeepsSame(s: State, s': State)
    requires ConnsOk(s) && s'.conns == s.conns && s'.pending.Keys == s.pending.Keys
    requires forall c :: c in s.pending ==> s'.pending[c].frames == s.pending[c].frames
    ensures Keeps(s, s')
  {
  }

  lemma KeepsTeardown(s: State, cid: u32)
    requires ConnsOk(s)
    ensures Keeps(s, Teardown(s, cid)) && Keeps(s, Reset(s, cid))
  {
  }

  ghost predicate Advances(c: Conn, c': Conn) {
    && ConnOk(c') && (c.finReceived ==> c'.finReceived)
    && forall k: u64 :: c.window.Has(k) ==> c'.window.Has(k)
  }

  lemma KeepsUpdate(s: State, cid: u32, c: Conn)
    requires ConnsOk(s) && cid in s.conns && Advances(s.conns[cid], c)
    ensures Keeps(s, s.(conns := s.conns[cid := c])) && Keeps(s, FinishIfDone(s, cid, c))
  {
    hide ConnOk, IsDone;
    KeepsTeardown(s, cid);
  }

  lemma KeepsFail(s: State, cid: u32)
    requires ConnsOk(s)
    ensures Keeps(s, FailPending(s, cid)) && Keeps(s, Tombstone(MarkCancelled(s, cid), cid))
  {
    hide ConnsOk, Keeps;
    KeepsSame(s, FailPending(s, cid));
    KeepsSame(s, Tombstone(MarkCancelled(s, cid), cid));
  }

  lemma KeepsEvicted(s: State, ks: seq<u32>, t: State)
    requires ConnsOk(s) && PB.EvictedExactly(s, ks, t)
    ensures Keeps(s, t)
  {
    hide ConnOk;
  }

  lemma KeepsEnqueue(s: State, cid: u32, m: Msg)
    requires ConnsOk(s) && (m.Data? ==> m.s < U64_MAX)
    ensures cid in s.pending ==> Keeps(s, Enqueue(s, cid, m)) && Queued(Enqueue(s, cid, m), cid, m)
    ensures cid !in s.pending ==>
              var s' := Enqueue(NewEntry(s, cid), cid, m); Keeps(s, s') && Queued(s', cid, m)
  {
    hide ConnOk;
  }

  lemma DataOnConnKeeps(s: State, cid: u32, n: u64, payload: Bytes, accepts: nat -> bool)
    requires ConnsOk(s) && cid in s.conns && n < U64_MAX
    ensures var s' := DataOnConn(s, cid, n, payload, accepts);
            Keeps(s, s') && Safe(s', cid, Data(n, payload))
  {
    hide Pushed, R.Offer, ConnOk, Keeps, Advances;
    var c := s.conns[cid];
    ReceiveKeeps(c, n, payload, accepts);
    PushCases(c.window, n, payload);
    KeepsSame(s, s);
    KeepsTeardown(s, cid);
    var r := R.OnData(R.Reassembler, c.window, c.output, n, payload, accepts);
    var c' := c.(window := r.window, output := r.output);
    if !r.reset {
      AdvancesBy(c, c');
      KeepsUpdate(s, cid, c');
      KeepsUpdate(s, cid, CloseWriteHalf(c'));
    }
  }

  lemma AdvancesBy(c: Conn, c': Conn)
    requires ConnOk(c') && c'.finReceived == c.finReceived && forall k: u64 :: c.window.Has(k) ==> c'.window.Has(k)
    ensures Advances(c, c') && Advances(c, CloseWriteHalf(c'))
  {
    assert Taken(CloseWriteHalf(c')) == Taken(c');
  }

  lemma DataQueuedKeeps(s: State, cid: u32, m: Msg, ks: seq<u32>)
    requires PB.Budget(s) && ConnsOk(s) && m.Data? && m.s < U64_MAX
    requires EvictionRun(s, Exempt(s, cid), MsgBytes(m), ks)
    ensures var s' := DataQueued(s, cid, m, ks); Keeps(s, s') && Safe(s', cid, m)
  {
    hide EvictionRun, EvictAll, PB.Budget, ConnsOk, Keeps, Enqueue;
    PB.EvictionEffect(s, Exempt(s, cid), MsgBytes(m), ks);
    var t := EvictAll(s, ks);
    KeepsEvicted(s, ks, t);
    EvictedSpares(s, cid, m, ks, t);
    KeepsOk(s, t);
    KeepsFail(t, cid);
    KeepsEnqueue(t, cid, m);
    EnqueueFrame(t, cid, m);
    KeepsCompose(s, t, DataQueued(s, cid, m, ks));
  }

  lemma KeepsOk(s: State, t: State)
    requires Keeps(s, t)
    ensures ConnsOk(t)
  {
    hide ConnsOk;
  }

  lemma EnqueueFrame(s: State, cid: u32, m: Msg)
    ensures cid in s.pending ==> Enqueue(s, cid, m).closed == s.closed
    ensures Enqueue(NewEntry(s, cid), cid, m).closed == s.closed
  {
  }

  /** The identifier whose frame is being placed is never itself evicted. */
  lemma EvictedSpares(s: State, cid: u32, m: Msg, ks: seq<u32>, t: State)
    requires PB.EvictedExactly(s, ks, t) && forall k :: k in ks ==> Candidate(s, Exempt(s, cid), k)
    ensures cid in s.pending <==> cid in t.pending
  {
  }

  lemma DataStepKeeps(s: State, cid: u32, n: u64, payload: Bytes, accepts: nat -> bool, ks: seq<u32>, s': State)
    requires PB.Budget(s) && ConnsOk(s) && n < U64_MAX && DataStep(s, cid, n, payload, accepts, ks, s')
    ensures Keeps(s, s') && Safe(s', cid, Data(n, payload))
  {
    hide DataOnConn, DataQueued, EvictionRun, PB.Budget, ConnsOk, Keeps;
    if cid in s.conns {
      DataOnConnKeeps(s, cid, n, payload, accepts);
    } else if cid in s.closed {
      KeepsSame(s, s');
    } else {
      KeepsFail(s, cid);
      if cid in s.pending || |s.pending| < MAX_PENDING_CIDS {
        DataQueuedKeeps(s, cid, Data(n, payload), ks);
      }
    }
  }

  lemma FinStepKeeps(s: State, cid: u32, n: u64)
    requires ConnsOk(s)
    ensures var s' := FinStep(s, cid, n); Keeps(s, s') && Safe(s', cid, Fin(n))
  {
    hide ConnOk, Keeps, Enqueue;
    KeepsSame(s, s);
    if cid in s.conns {
      HalfCloseAdvances(s.conns[cid], n);
      KeepsUpdate(s, cid, StartHalfClose(s.conns[cid], n));
    } else {
      KeepsFail(s, cid);
      KeepsEnqueue(s, cid, Fin(n));
    }
  }

  lemma HalfCloseAdvances(c: Conn, n: u64)
    requires ConnOk(c)
    ensures Advances(c, StartHalfClose(c, n)) && StartHalfClose(c, n).finReceived
  {
    assert Taken(StartHalfClose(c, n)) == Taken(c);
  }

  lemma SynBeginKeeps(s: State, cid: u32, valid: bool)
    requires ConnsOk(s)
    ensures Keeps(s, SynBegin(s, cid, valid))
  {
    hide ConnOk;
    KeepsSame(s, s);
  }

  /** A replay that does not fail takes in every queued frame. */
  lemma {:induction false} ReplayTakesAll(c: Conn, frames: seq<Msg>, offers: nat -> nat -> bool)
    requires ConnOk(c) && !c.finReceived
    requires forall m :: m in frames && m.Data? ==> m.s < U64_MAX
    requires !Replay(c, frames, offers).failed
    ensures var p := Replay(c, frames, offers);
            && ConnOk(p.conn) && !p.conn.finReceived
            && (forall m :: m in frames && m.Data? ==> m.s == 0 || p.conn.window.Has(m.s))
            && (forall m :: m in frames && m.Fin? ==> p.fin != [])
  {
    if frames != [] {
      hide ConnOk, R.OnData;
      var i := |frames| - 1;
      var front, last := frames[..i], frames[i];
      assert frames == front + [last];
      ReplayTakesAll(c, front, offers);
      var p := Replay(c, front, offers);
      if last.Data? {
        ReceiveKeeps(p.conn, last.s, last.payload, offers(i));
      }
    }
  }

  lemma FreshOk(s: State)
    ensures ConnOk(FreshConn(s))
  {
    assert Taken(FreshConn(s)) == map[];
  }

  /** Ending a handshake loses at most the queue of its own identifier. */
  lemma EndHandshakeKeeps(s: State, cid: u32, s': State)
    requires ConnsOk(s) && cid !in s.conns
    requires s'.pending == EndHandshake(s, cid).pending
    requires forall c :: c in s'.conns ==>
               if c == cid then ConnOk(s'.conns[c]) else c in s.conns && s'.conns[c] == s.conns[c]
    requires forall c :: c in s.conns ==> c in s'.conns
    requires cid in s'.closed || forall m :: Queued(s, cid, m) ==> Absorbed(s', cid, m)
    ensures Keeps(s, s')
  {
    hide ConnOk;
  }

  /** The connection a replay established has absorbed everything that was queued for it. */
  lemma ReplayedKeeps(s: State, cid: u32, c: Conn, t: State)
    requires ConnsOk(s) && cid !in s.conns && t == EndHandshake(s, cid) && ConnOk(c)
    requires forall m :: Queued(s, cid, m) ==> if m.Data? then m.s == 0 || c.window.Has(m.s) else c.finReceived
    ensures Keeps(s, t.(conns := t.conns[cid := c]))
  {
    hide ConnOk, Keeps;
    EndHandshakeKeeps(s, cid, t.(conns := t.conns[cid := c]));
  }

  lemma TornDownKeeps(s: State, cid: u32, s': State)
    requires ConnsOk(s) && cid !in s.conns && s'.conns == s.conns && cid in s'.closed
    requires s'.pending == EndHandshake(s, cid).pending
    ensures Keeps(s, s')
  {
    hide ConnOk, Keeps;
    EndHandshakeKeeps(s, cid, s');
  }

  lemma EndHandshakeFields(s: State, cid: u32)
    ensures var t := EndHandshake(s, cid);
            t.conns == s.conns && t.closed == s.closed && t.pending == s.pending - {cid}
  {
  }

  lemma SynConnectedKeeps(s: State, cid: u32, offers: nat -> nat -> bool)
    requires ConnsOk(s) && cid !in s.conns
    ensures Keeps(s, SynConnected(s, cid, offers))
  {
    hide ConnOk, ConnsOk, Replay, Keeps, EndHandshake, StartHalfClose, IsDone;
    var t, s' := EndHandshake(s, cid), SynConnected(s, cid, offers);
    EndHandshakeFields(s, cid);
    FreshOk(s);
    if cid in s'.closed {
      assert s'.conns == s.conns;
      TornDownKeeps(s, cid, s');
    } else if cid !in s.pending {
      ReplayedKeeps(s, cid, FreshConn(s), t);
    } else {
      QueuedNumbers(s, cid);
      var p := Replay(FreshConn(s), s.pending[cid].frames, offers);
      ReplayTakesAll(FreshConn(s), s.pending[cid].frames, offers);
      if p.fin == [] {
        ReplayedKeeps(s, cid, p.conn, t);
      } else {
        HalfCloseAdvances(p.conn, p.fin[0]);
        ReplayedKeeps(s, cid, StartHalfClose(p.conn, p.fin[0]), t);
      }
    }
  }

  lemma QueuedNumbers(s: State, cid: u32)
    requires ConnsOk(s) && cid in s.pending
    ensures forall m :: m in s.pending[cid].frames && m.Data? ==> m.s < U64_MAX
  {
  }

  lemma EofKeeps(s: State, cid: u32, finSent: bool)
    requires ConnsOk(s) && cid in s.conns
    ensures Keeps(s, FinishIfDone(if finSent then s else SendRst(s, cid), cid, s.conns[cid].(eof := true)))
  {
    hide ConnsOk, Keeps, IsDone, ConnOk;
    var c := s.conns[cid].(eof := true);
    assert Taken(c) == Taken(s.conns[cid]);
    FlagAdvances(s, cid, c);
    var t := if finSent then s else SendRst(s, cid);
    KeepsSame(s, t);
    KeepsOk(s, t);
    KeepsUpdate(t, cid, c);
    assert t.closed.Keys <= FinishIfDone(t, cid, c).closed.Keys;
    KeepsCompose(s, t, FinishIfDone(t, cid, c));
  }

  lemma FlagAdvances(s: State, cid: u32, c: Conn)
    requires ConnsOk(s) && cid in s.conns && c.window == s.conns[cid].window && c.output == s.conns[cid].output
    requires s.conns[cid].finReceived ==> c.finReceived
    ensures Advances(s.conns[cid], c)
  {
    assert Taken(c) == Taken(s.conns[cid]);
  }

  lemma StepKeeps(s: State, e: Event, s': State)
    requires L.Inv(s) && ConnsOk(s) && Next(s, e, s')
    ensures Keeps(s, s')
    ensures forall cid, m :: Arrives(e, cid, m) ==> Safe(s', cid, m)
  {
    hide DataStep, FinStep, SynBegin, SynConnected, FinishIfDone, Reset, MarkCancelled, Evict;
    hide Keeps, Safe, PB.Budget, ConnOk;
    match e
    case OnData(cid, n, payload, accepts, ks) => DataStepKeeps(s, cid, n, payload, accepts, ks, s');
    case OnFin(cid, n) => FinStepKeeps(s, cid, n);
    case OnRst(cid) =>
      KeepsTeardown(s, cid);
      KeepsFail(s, cid);
    case OnSyn(cid, valid) => SynBeginKeeps(s, cid, valid);
    case Connected(cid, offers) => SynConnectedKeeps(s, cid, offers);
    case ConnectFailed(cid) => EndHandshakeKeeps(s, cid, s');
    case ConnectCancelled(cid) => EndHandshakeKeeps(s, cid, s');
    case EgressEof(cid, finSent) => EofKeeps(s, cid, finSent);
    case EgressSendFailed(cid) => KeepsTeardown(s, cid);
    case ForceClose(cid) =>
      FlagAdvances(s, cid, s.conns[cid].(hc := 2));
      KeepsUpdate(s, cid, s.conns[cid].(hc := 2));
    case IdleSweep(cid) => KeepsTeardown(s, cid);
    case StaleSweep(cid) => SweepKeeps(s, cid);
    case TombstoneExpires(cid) => KeepsSame(s, s');
    case Tick(later) => KeepsSame(s, s');
  }

  lemma SweepKeeps(s: State, cid: u32)
    requires ConnsOk(s)
    ensures Keeps(s, Evict(s, cid))
  {
    hide ConnOk;
    var t := Evict(s, cid);
    assert t.conns == s.conns && t.pending == s.pending - {cid} && cid in t.closed;
  }

  // ----- every run

  lemma {:induction false} RunKeeps(states: seq<State>, events: seq<Event>, i: nat)
    requires IsRun(states, events) && i < |states|
    ensures ConnsOk(states[i])
    ensures i > 0 ==> Keeps(states[i - 1], states[i])
    ensures i > 0 ==> forall cid, m :: Arrives(events[i - 1], cid, m) ==> Safe(states[i], cid, m)
  {
    hide Next, L.Inv, Keeps, Safe, Arrives;
    if i > 0 {
      RunKeeps(states, events, i - 1);
      L.RunInv(states, events, i - 1);
      StepKeeps(states[i - 1], events[i - 1], states[i]);
      KeepsOk(states[i - 1], states[i]);
    }
  }

  /** The egress output of every established connection is, chunk by chunk, the stream its
      window has let through. */
  lemma EgressStreamInOrder(states: seq<State>, events: seq<Event>, i: nat, cid: u32)
    requires IsRun(states, events) && i < |states| && cid in states[i].conns
    ensures |states[i].conns[cid].output| + 1 == states[i].conns[cid].window.expected
  {
    hide Next;
    RunKeeps(states, events, i);
  }

  /** Held in every state up to step k, the frame leaves the reassembler there, settled: handed to
      egress at its own place in the stream, recognised as a duplicate, taken as the half-close, made
      void by another FIN, or dropped in a state where its connection is tombstoned. */
  ghost predicate SettledAt(states: seq<State>, cid: u32, m: Msg, i: nat, k: nat)
    requires i < k < |states|
  {
    && (forall n :: i < n < k ==> Held(states[n], cid, m))
    && !Held(states[k], cid, m) && Settled(states[k], cid, m)
  }

  /** A frame handled in step i is held in every later state, or up to a step that settles it. */
  lemma {:induction false} NothingLostSilently(states: seq<State>, events: seq<Event>, cid: u32, m: Msg, i: nat, j: nat)
    requires IsRun(states, events) && i < j < |states| && Arrives(events[i], cid, m)
    ensures (forall k :: i < k <= j ==> Held(states[k], cid, m))
         || exists k: nat :: i < k <= j && SettledAt(states, cid, m, i, k)
    decreases j
  {
    hide Next, Arrives, Settled, Held, Safe, Keeps;
    RunKeeps(states, events, j);
    if j == i + 1 {
      SafeIsAccounted(states[j], cid, m);
      assert Held(states[j], cid, m) || SettledAt(states, cid, m, i, j);
    } else {
      NothingLostSilently(states, events, cid, m, i, j - 1);
      if forall k :: i < k <= j - 1 ==> Held(states[k], cid, m) {
        HeldUntilSettled(states, events, cid, m, j);
        assert Held(states[j], cid, m) || SettledAt(states, cid, m, i, j);
      }
    }
  }

  /** What is held before any step is held or settled after it. */
  lemma HeldUntilSettled(states: seq<State>, events: seq<Event>, cid: u32, m: Msg, j: nat)
    requires IsRun(states, events) && 0 < j < |states| && Held(states[j - 1], cid, m)
    ensures Held(states[j], cid, m) || Settled(states[j], cid, m)
  {
    hide Next, Settled, Held, Safe, Keeps;
    RunKeeps(states, events, j);
    HeldStaysSafe(states[j - 1], states[j], cid, m);
    SafeIsAccounted(states[j], cid, m);
  }

  lemma HeldStaysSafe(s: State, s': State, cid: u32, m: Msg)
    requires Keeps(s, s') && Held(s, cid, m)
    ensures Safe(s', cid, m)
  {
    assert Absorbed(s, cid, m) || Queued(s, cid, m);
  }
}
