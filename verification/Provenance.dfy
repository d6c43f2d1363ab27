/** The converse of losing nothing: the reassembler invents nothing.  Whatever it queues, buffers,
    hands to egress or takes for the end of the stream came in a frame of that connection. */
module Provenance {
  import opened Wire
  import opened Reorder
  import opened Reassembler
  import opened NoSilentLoss
  import PB = PendingBudget
  import L = Lifecycle
  import R = Receiver

  /** Among the events `h` the frame `m` arrived for `cid`. */
  ghost predicate Arrived(h: seq<Event>, cid: u32, m: Msg) {
    exists i :: 0 <= i < |h| && Arrives(h[i], cid, m)
  }

  ghost predicate ConnSourced(c: Conn, h: seq<Event>, cid: u32) {
    && (forall k :: k in Taken(c) ==> Arrived(h, cid, Data(k, Taken(c)[k])))
    && (c.finReceived ==> Arrived(h, cid, Fin(c.finSeq)))
  }

  ghost predicate Sourced(s: State, h: seq<Event>) {
    && (forall c :: c in s.conns ==> ConnSourced(s.conns[c], h, c))
    && (forall c, m :: Queued(s, c, m) ==> Arrived(h, c, m))
  }

  lemma SourcedMore(s: State, h: seq<Event>, e: Event)
    requires Sourced(s, h)
    ensures Sourced(s, h + [e])
    ensures forall c, m :: Arrives(e, c, m) ==> Arrived(h + [e], c, m)
  {
    hide Arrives;
    var h' := h + [e];
    forall c, m | Arrived(h, c, m)
      ensures Arrived(h', c, m)
    {
      var i :| 0 <= i < |h| && Arrives(h[i], c, m);
      assert h'[i] == h[i];
    }
    assert h'[|h|] == e;
  }

  // ----- one connection

  lemma ReceiveSourced(c: Conn, n: u64, payload: Bytes, accepts: nat -> bool, h: seq<Event>, cid: u32)
    requires ConnOk(c) && n < U64_MAX && ConnSourced(c, h, cid) && Arrived(h, cid, Data(n, payload))
    ensures var r := R.OnData(R.Reassembler, c.window, c.output, n, payload, accepts);
            !r.reset ==> ConnSourced(c.(window := r.window, output := r.output), h, cid)
  {
    hide ConnOk, R.OnData, Arrived, Taken;
    ReceiveKeeps(c, n, payload, accepts);
  }

  lemma HalfCloseSourced(c: Conn, n: u64, h: seq<Event>, cid: u32)
    requires ConnSourced(c, h, cid) && Arrived(h, cid, Fin(n))
    ensures ConnSourced(StartHalfClose(c, n), h, cid)
  {
    hide Arrived;
    assert Taken(StartHalfClose(c, n)) == Taken(c);
  }

  lemma SameSourced(c: Conn, c': Conn, h: seq<Event>, cid: u32)
    requires ConnSourced(c, h, cid) && c'.window == c.window && c'.output == c.output
    requires c'.finReceived == c.finReceived && c'.finSeq == c.finSeq
    ensures ConnSourced(c', h, cid)
  {
    hide Arrived;
    assert Taken(c') == Taken(c);
  }

  lemma {:induction false} ReplaySourced(c: Conn, frames: seq<Msg>, offers: nat -> nat -> bool, h: seq<Event>, cid: u32)
    requires ConnOk(c) && !c.finReceived && ConnSourced(c, h, cid)
    requires forall m :: m in frames ==> Arrived(h, cid, m) && (m.Data? ==> m.s < U64_MAX)
    requires !Replay(c, frames, offers).failed
    ensures var p := Replay(c, frames, offers);
            && ConnSourced(p.conn, h, cid)
            && (p.fin != [] ==> Arrived(h, cid, Fin(p.fin[0])))
  {
    if frames != [] {
      hide ConnOk, ConnSourced, R.OnData, Arrived;
      var i := |frames| - 1;
      var front, last := frames[..i], frames[i];
      assert frames == front + [last];
      ReplayTakesAll(c, front, offers);
      ReplaySourced(c, front, offers, h, cid);
      var p := Replay(c, front, offers);
      if last.Data? {
        ReceiveSourced(p.conn, last.s, last.payload, offers(i), h, cid);
      }
    }
  }

  // ----- one step, with the frame it handles already in `h`

  lemma DroppedSourced(s: State, s': State, h: seq<Event>)
    requires Sourced(s, h)
    requires forall c :: c in s'.conns ==> c in s.conns && s'.conns[c] == s.conns[c]
    requires forall c :: c in s'.pending ==> c in s.pending && s'.pending[c].frames == s.pending[c].frames
    ensures Sourced(s', h)
  {
    hide Arrived, ConnSourced;
  }

  lemma UpdateSourced(s: State, cid: u32, c: Conn, h: seq<Event>)
    requires Sourced(s, h) && ConnSourced(c, h, cid)
    ensures Sourced(s.(conns := s.conns[cid := c]), h) && Sourced(FinishIfDone(s, cid, c), h)
  {
    hide Arrived, ConnSourced, IsDone;
  }

  lemma EnqueueSourced(s: State, cid: u32, m: Msg, h: seq<Event>)
    requires Sourced(s, h) && Arrived(h, cid, m)
    ensures cid in s.pending ==> Sourced(Enqueue(s, cid, m), h)
    ensures Sourced(Enqueue(NewEntry(s, cid), cid, m), h)
  {
    hide Arrived, ConnSourced;
  }

  lemma FailSourced(s: State, cid: u32, h: seq<Event>)
    requires Sourced(s, h)
    ensures Sourced(FailPending(s, cid), h) && Sourced(Tombstone(MarkCancelled(s, cid), cid), h)
  {
    hide Sourced;
    DroppedSourced(s, FailPending(s, cid), h);
    DroppedSourced(s, Tombstone(MarkCancelled(s, cid), cid), h);
  }

  lemma DataOnConnSourced(s: State, cid: u32, n: u64, payload: Bytes, accepts: nat -> bool, h: seq<Event>)
    requires ConnsOk(s) && Sourced(s, h) && cid in s.conns && n < U64_MAX && Arrived(h, cid, Data(n, payload))
    ensures Sourced(DataOnConn(s, cid, n, payload, accepts), h)
  {
    hide Pushed, R.Offer, ConnOk, Arrived, ConnSourced, FinishIfDone;
    var c := s.conns[cid];
    ReceiveSourced(c, n, payload, accepts, h, cid);
    var r := R.OnData(R.Reassembler, c.window, c.output, n, payload, accepts);
    DroppedSourced(s, Reset(s, cid), h);
    if !r.reset {
      var c' := c.(window := r.window, output := r.output);
      SameSourced(c', CloseWriteHalf(c'), h, cid);
      UpdateSourced(s, cid, c', h);
      UpdateSourced(s, cid, CloseWriteHalf(c'), h);
    }
  }

  lemma DataSourced(s: State, cid: u32, n: u64, payload: Bytes, accepts: nat -> bool, ks: seq<u32>, s': State,
                    h: seq<Event>)
    requires PB.Budget(s) && ConnsOk(s) && Sourced(s, h) && n < U64_MAX
    requires DataStep(s, cid, n, payload, accepts, ks, s') && Arrived(h, cid, Data(n, payload))
    ensures Sourced(s', h)
  {
    hide DataOnConn, PB.Budget, ConnsOk, Sourced, Arrived, EvictionRun, EvictAll, Enqueue, NewEntry;
    if cid in s.conns {
      DataOnConnSourced(s, cid, n, payload, accepts, h);
    } else if cid in s.closed {
      DroppedSourced(s, s', h);
    } else if cid !in s.pending && |s.pending| >= MAX_PENDING_CIDS {
      FailSourced(s, cid, h);
    } else {
      var t := EvictAll(s, ks);
      PB.EvictionEffect(s, Exempt(s, cid), |payload|, ks);
      DroppedSourced(s, t, h);
      EnqueueSourced(t, cid, Data(n, payload), h);
      FailSourced(t, cid, h);
    }
  }

  lemma FinSourced(s: State, cid: u32, n: u64, h: seq<Event>)
    requires Sourced(s, h) && Arrived(h, cid, Fin(n))
    ensures Sourced(FinStep(s, cid, n), h)
  {
    hide Arrived, ConnSourced, FinishIfDone, StartHalfClose, Enqueue, NewEntry, FailPending;
    if cid in s.conns {
      HalfCloseSourced(s.conns[cid], n, h, cid);
      UpdateSourced(s, cid, StartHalfClose(s.conns[cid], n), h);
    } else {
      EnqueueSourced(s, cid, Fin(n), h);
      FailSourced(s, cid, h);
    }
  }

  lemma SynSourced(s: State, cid: u32, valid: bool, h: seq<Event>)
    requires Sourced(s, h)
    ensures Sourced(SynBegin(s, cid, valid), h)
  {
    hide Arrived, ConnSourced;
    if cid in s.pending {
      DroppedSourced(s, SynBegin(s, cid, valid), h);
    }
  }

  lemma FreshSourced(s: State, h: seq<Event>, cid: u32)
    ensures ConnSourced(FreshConn(s), h, cid)
  {
    assert Taken(FreshConn(s)) == map[];
  }

  lemma ConnectedSourced(s: State, cid: u32, offers: nat -> nat -> bool, h: seq<Event>)
    requires ConnsOk(s) && Sourced(s, h)
    ensures Sourced(SynConnected(s, cid, offers), h)
  {
    hide Arrived, ConnSourced, ConnsOk, ConnOk, Replay, EndHandshake, StartHalfClose, FinishIfDone;
    var t := EndHandshake(s, cid);
    EndHandshakeFields(s, cid);
    DroppedSourced(s, t, h);
    FreshSourced(s, h, cid);
    UpdateSourced(t, cid, FreshConn(s), h);
    if cid in s.pending {
      QueuedNumbers(s, cid);
      FreshOk(s);
      assert forall m :: m in s.pending[cid].frames ==> Queued(s, cid, m);
      var p := Replay(FreshConn(s), s.pending[cid].frames, offers);
      if !p.failed {
        ReplaySourced(FreshConn(s), s.pending[cid].frames, offers, h, cid);
        UpdateSourced(t, cid, p.conn, h);
        if p.fin != [] {
          HalfCloseSourced(p.conn, p.fin[0], h, cid);
          UpdateSourced(t, cid, StartHalfClose(p.conn, p.fin[0]), h);
        }
      }
    }
  }

  lemma LocalSourced(s: State, e: Event, s': State, h: seq<Event>)
    requires Sourced(s, h) && Next(s, e, s') && (e.EgressEof? || e.ForceClose?)
    ensures Sourced(s', h)
  {
    hide Arrived, ConnSourced, FinishIfDone;
    var cid := e.cid;
    if e.ForceClose? {
      SameSourced(s.conns[cid], s.conns[cid].(hc := 2), h, cid);
      UpdateSourced(s, cid, s.conns[cid].(hc := 2), h);
    } else {
      var c, t := s.conns[cid].(eof := true), if e.finSent then s else SendRst(s, cid);
      SameSourced(s.conns[cid], c, h, cid);
      DroppedSourced(s, t, h);
      UpdateSourced(t, cid, c, h);
    }
  }

  lemma StepSourced(s: State, e: Event, s': State, h: seq<Event>)
    requires L.Inv(s) && ConnsOk(s) && Sourced(s, h) && Next(s, e, s')
    requires forall c, m :: Arrives(e, c, m) ==> Arrived(h, c, m)
    ensures Sourced(s', h)
  {
    hide Sourced, ConnsOk, Arrived, DataStep, FinStep, SynBegin, SynConnected;
    hide FinishIfDone, MarkCancelled, EndHandshake, Evict, PB.Budget;
    match e
    case OnData(cid, n, payload, accepts, ks) =>
      assert Arrives(e, cid, Data(n, payload));
      DataSourced(s, cid, n, payload, accepts, ks, s', h);
    case OnFin(cid, n) =>
      assert Arrives(e, cid, Fin(n));
      FinSourced(s, cid, n, h);
    case OnRst(cid) =>
      FailSourced(s, cid, h);
      DroppedSourced(s, Teardown(s, cid), h);
    case OnSyn(cid, valid) => SynSourced(s, cid, valid, h);
    case Connected(cid, offers) => ConnectedSourced(s, cid, offers, h);
    case EgressEof(_, _) => LocalSourced(s, e, s', h);
    case ForceClose(_) => LocalSourced(s, e, s', h);
    case ConnectFailed(cid) =>
      EndHandshakeFields(s, cid);
      DroppedSourced(s, s', h);
    case ConnectCancelled(cid) =>
      EndHandshakeFields(s, cid);
      DroppedSourced(s, s', h);
    case StaleSweep(cid) => SweepSourced(s, cid, h);
    case _ => DroppedSourced(s, s', h);
  }

  lemma SweepSourced(s: State, cid: u32, h: seq<Event>)
    requires Sourced(s, h) && cid in s.pending
    ensures Sourced(Evict(s, cid), h)
  {
    hide Sourced, Evict, PB.SameHandshakes;
    PB.EvictFields(s, cid);
    DroppedSourced(s, Evict(s, cid), h);
  }

  // ----- every run

  lemma {:induction false} RunSourced(states: seq<State>, events: seq<Event>, i: nat)
    requires IsRun(states, events) && i < |states|
    ensures Sourced(states[i], events[..i])
  {
    hide Next, L.Inv, ConnsOk, Arrives;
    if i > 0 {
      hide Sourced;
      RunSourced(states, events, i - 1);
      L.RunInv(states, events, i - 1);
      RunKeeps(states, events, i - 1);
      SourcedMore(states[i - 1], events[..i - 1], events[i - 1]);
      assert events[..i] == events[..i - 1] + [events[i - 1]];
      StepSourced(states[i - 1], events[i - 1], states[i], events[..i]);
    }
  }

  /** In every run, the k-th chunk on a connection's egress stream is the payload of a DATA frame
      numbered k that arrived for that very connection, and the number its half-close waits for
      is that of a FIN that arrived for it. */
  lemma NothingInvented(states: seq<State>, events: seq<Event>, i: nat, cid: u32)
    requires IsRun(states, events) && i < |states| && cid in states[i].conns
    ensures var c := states[i].conns[cid];
            && |c.output| + 1 == c.window.expected
            && (forall k :: 0 <= k < |c.output| ==> Arrived(events[..i], cid, Data(k + 1, c.output[k])))
            && (c.finReceived ==> Arrived(events[..i], cid, Fin(c.finSeq)))
  {
    hide Next, Arrived;
    RunSourced(states, events, i);
    EgressStreamInOrder(states, events, i, cid);
    var c := states[i].conns[cid];
    forall k | 0 <= k < |c.output|
      ensures Arrived(events[..i], cid, Data(k + 1, c.output[k]))
    {
      var n: u64 := k + 1;
      assert n in Taken(c);
    }
  }

  /** Every DATA frame for `cid` carries its own chunk of `stream`. */
  ghost predicate Carries(events: seq<Event>, cid: u32, stream: seq<Bytes>) {
    forall j :: 0 <= j < |events| && events[j].OnData? && events[j].cid == cid ==>
      1 <= events[j].n <= |stream| && events[j].payload == stream[events[j].n - 1]
  }

  /** The prefix property through the queue ahead of the SYN: if the frames for a connection carry a
      stream, then whatever came before, during or after its connect, in any order, among any other
      connections, its egress output is a prefix of that stream. */
  lemma EgressIsPrefix(states: seq<State>, events: seq<Event>, i: nat, cid: u32, stream: seq<Bytes>)
    requires IsRun(states, events) && i < |states| && cid in states[i].conns
    requires Carries(events, cid, stream)
    ensures states[i].conns[cid].output <= stream
  {
    hide Next;
    NothingInvented(states, events, i, cid);
    var output := states[i].conns[cid].output;
    forall k | 0 <= k < |output|
      ensures k < |stream| && output[k] == stream[k]
    {
      assert Arrived(events[..i], cid, Data(k + 1, output[k]));
      var j :| 0 <= j < i && Arrives(events[..i][j], cid, Data(k + 1, output[k]));
      assert events[..i][j] == events[j];
    }
    if output != [] {
      var last := |output| - 1;
      assert last < |output|;
      var chunk := output[last];
      assert last < |stream|;
    }
  }

  // ----- nothing missing

  /** A frame of an identifier that is never tombstoned stays in its queue or its connection. */
  lemma {:induction false} StaysIn(states: seq<State>, events: seq<Event>, cid: u32, m: Msg, j: nat, i: nat)
    requires IsRun(states, events) && j < i < |states| && Arrives(events[j], cid, m)
    requires forall k :: 0 <= k <= i ==> cid !in states[k].closed
    ensures Absorbed(states[i], cid, m) || Queued(states[i], cid, m)
    decreases i
  {
    hide Next, Arrives, Absorbed, Queued;
    RunKeeps(states, events, i);
    assert !Tombstoned(states[i], cid);
    if j < i - 1 {
      StaysIn(states, events, cid, m, j, i - 1);
    }
    assert Safe(states[i], cid, m);
  }

  /** Every chunk of `stream` has arrived in one of the events. */
  ghost predicate AllArrived(events: seq<Event>, cid: u32, stream: seq<Bytes>) {
    |stream| + 1 < U64_MAX && forall k :: 0 <= k < |stream| ==> Arrived(events, cid, Data(k + 1, stream[k]))
  }

  /** Once established and never tombstoned, a connection has absorbed all that arrived for it. */
  lemma ArrivedIsAbsorbed(states: seq<State>, events: seq<Event>, i: nat, cid: u32, m: Msg)
    requires IsRun(states, events) && i < |states| && cid in states[i].conns
    requires forall k :: 0 <= k <= i ==> cid !in states[k].closed
    requires Arrived(events[..i], cid, m)
    ensures Absorbed(states[i], cid, m)
  {
    hide Next, Arrives, PB.Budget, L.Timely;
    var j :| 0 <= j < i && Arrives(events[..i][j], cid, m);
    assert events[..i][j] == events[j];
    StaysIn(states, events, cid, m, j, i);
    L.RunInv(states, events, i);
  }

  /** The companion of the prefix property: if the frames for a connection carry a stream and all of
      it has arrived, in any order, before, during or after the connect, then an established
      connection that was never tombstoned has handed the whole stream to egress; and if a FIN
      arrived, and all FINs agree on the number after the last chunk, the half-close waits for
      exactly that number and the window is complete through it. */
  lemma EgressIsComplete(states: seq<State>, events: seq<Event>, i: nat, cid: u32, stream: seq<Bytes>)
    requires IsRun(states, events) && i < |states| && cid in states[i].conns
    requires forall k :: 0 <= k <= i ==> cid !in states[k].closed
    requires Carries(events, cid, stream) && AllArrived(events[..i], cid, stream)
    ensures var c := states[i].conns[cid];
            && c.output == stream
            && (Arrived(events[..i], cid, Fin(|stream| + 1)) && FinsAgree(events, cid, |stream| + 1) ==>
                  c.finReceived && c.finSeq == |stream| + 1 && c.window.IsCompleteThrough(c.finSeq))
  {
    hide Next, Arrives, Arrived;
    var c := states[i].conns[cid];
    EgressIsPrefix(states, events, i, cid, stream);
    NothingInvented(states, events, i, cid);
    RunKeeps(states, events, i);
    if |c.output| < |stream| {
      var k := |c.output|;
      assert Arrived(events[..i], cid, Data(k + 1, stream[k]));
      ArrivedIsAbsorbed(states, events, i, cid, Data(k + 1, stream[k]));
      assert false by {
        ExpectedIsMissing(c);
      }
    }
    if Arrived(events[..i], cid, Fin(|stream| + 1)) && FinsAgree(events, cid, |stream| + 1) {
      ArrivedIsAbsorbed(states, events, i, cid, Fin(|stream| + 1));
      FinAgreed(events, i, cid, c.finSeq, |stream| + 1);
    }
  }

  lemma ExpectedIsMissing(c: Conn)
    requires ConnOk(c)
    ensures c.window.expected >= 1 && !c.window.Has(c.window.expected)
  {
  }

  ghost predicate FinsAgree(events: seq<Event>, cid: u32, n: u64) {
    forall j :: 0 <= j < |events| && events[j].OnFin? && events[j].cid == cid ==> events[j].n == n
  }

  lemma FinAgreed(events: seq<Event>, i: nat, cid: u32, s: u64, n: u64)
    requires i <= |events| && Arrived(events[..i], cid, Fin(s)) && FinsAgree(events, cid, n)
    ensures s == n
  {
    var j :| 0 <= j < i && Arrives(events[..i][j], cid, Fin(s));
    assert events[..i][j] == events[j];
  }
}
