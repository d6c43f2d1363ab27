/** What the reassembler's state can still cause: every queued entry, handshake and established
    connection carries a cost that covers the resets it may end in. */
module ReassemblerCost {
  import opened Wire
  import opened MapSums
  import opened Reassembler
  import R = Receiver
  import Reorder

  /** A connection whose egress reader still runs owes a FIN or an RST for that reader too. */
  function ConnCost(c: Conn): nat {
    if c.eof then 3 else 6
  }

  ghost function ReCost(s: State): nat {
    3 * |s.pending| + 7 * |s.handshaking| + MapSum(s.conns, ConnCost)
  }

  /** One step turns its budget and the cost of what it gives up into resets, three units each;
      a step without resets gives up at least one unit. */
  ghost predicate Spends(s: State, s': State, budget: int) {
    && s.rsts <= s'.rsts
    && var k := |s'.rsts| - |s.rsts|;
       ReCost(s') + 3 * k + (if k == 0 then 1 else 0) <= ReCost(s) + budget
  }

  lemma RemovedSize<V>(m: map<u32, V>, k: u32)
    ensures |m - {k}| == |m| - if k in m then 1 else 0
  {
    assert (m - {k}).Keys == m.Keys - {k};
    assert |m - {k}| == |(m - {k}).Keys| && |m| == |m.Keys|;
  }

  lemma RemovePendingCost(s: State, cid: u32)
    ensures ReCost(RemovePending(s, cid)) == ReCost(s) - if cid in s.pending then 3 else 0
  {
    RemovedSize(s.pending, cid);
  }

  lemma ResetLogCost(s: State, cid: u32)
    ensures ReCost(SendRst(s, cid)) == ReCost(s)
  {
  }

  lemma TombstoneCost(s: State, cid: u32)
    ensures ReCost(Tombstone(s, cid)) == ReCost(s)
  {
  }

  lemma TeardownCost(s: State, cid: u32)
    ensures ReCost(Teardown(s, cid)) == ReCost(s) - if cid in s.conns then ConnCost(s.conns[cid]) else 0
  {
    if cid in s.conns {
      MapSumSplit(s.conns, ConnCost, cid);
    } else {
      assert s.conns - {cid} == s.conns;
    }
  }

  lemma SetConnCost(s: State, cid: u32, c: Conn)
    ensures ReCost(s.(conns := s.conns[cid := c]))
         == ReCost(s) + ConnCost(c) - if cid in s.conns then ConnCost(s.conns[cid]) else 0
  {
    if cid in s.conns {
      MapSumUpdate(s.conns, ConnCost, cid, c);
    } else {
      MapSumInsert(s.conns, ConnCost, cid, c);
    }
  }

  lemma ResetCost(s: State, cid: u32)
    requires cid in s.conns
    ensures ReCost(Reset(s, cid)) == ReCost(s) - ConnCost(s.conns[cid])
  {
    hide ReCost;
    TeardownCost(s, cid);
    ResetLogCost(Teardown(s, cid), cid);
  }

  /** Finishing a connection whose reader has ended leaves no reader behind. */
  lemma FinishCost(s: State, cid: u32, c: Conn)
    requires cid in s.conns && (s.conns[cid].eof ==> c.eof)
    ensures var t := FinishIfDone(s, cid, c);
            && t.rsts == s.rsts
            && ReCost(t) <= ReCost(s) + ConnCost(c) - ConnCost(s.conns[cid])
            && (cid !in t.conns ==> c.eof)
  {
    hide ReCost;
    TeardownCost(s, cid);
    SetConnCost(s, cid, c);
  }

  lemma MarkCancelledCost(s: State, cid: u32)
    ensures ReCost(MarkCancelled(s, cid)) == ReCost(s) && MarkCancelled(s, cid).rsts == s.rsts
  {
  }

  lemma FailPendingCost(s: State, cid: u32)
    ensures ReCost(FailPending(s, cid)) == ReCost(s) && FailPending(s, cid).rsts == s.rsts + [cid]
  {
    MarkCancelledCost(s, cid);
  }

  lemma EvictCost(s: State, cid: u32)
    requires cid in s.pending
    ensures ReCost(Evict(s, cid)) + 3 == ReCost(s)
    ensures Evict(s, cid).rsts == s.rsts + [cid] && Evict(s, cid).conns == s.conns
  {
    hide MapSum;
    var t := NotifyHandshake(s, cid);
    assert ReCost(t) == ReCost(s);
    RemovePendingCost(t, cid);
  }

  lemma {:induction false} EvictAllCost(s: State, exclude: set<u32>, need: nat, ks: seq<u32>)
    requires EvictionRun(s, exclude, need, ks)
    ensures var t := EvictAll(s, ks);
            t.conns == s.conns && t.rsts == s.rsts + ks && ReCost(t) + 3 * |ks| == ReCost(s)
    decreases |ks|
  {
    hide ReCost;
    if ks != [] {
      EvictCost(s, ks[0]);
      EvictAllCost(Evict(s, ks[0]), exclude, need, ks[1..]);
      assert ks == [ks[0]] + ks[1..];
    }
  }

  lemma EnqueueCost(s: State, cid: u32, m: Msg)
    ensures cid in s.pending ==> ReCost(Enqueue(s, cid, m)) == ReCost(s)
    ensures ReCost(Enqueue(NewEntry(s, cid), cid, m)) <= ReCost(s) + 3
  {
  }

  lemma PlacedCost(s: State, cid: u32, m: Msg, queued: bool)
    ensures var t := Placed(s, cid, m, queued);
            && t.conns == s.conns
            && ((t.rsts == s.rsts && ReCost(t) <= ReCost(s) + 3)
                || (t.rsts == s.rsts + [cid] && ReCost(t) == ReCost(s)))
  {
    hide ReCost;
    EnqueueCost(s, cid, m);
    FailPendingCost(s, cid);
  }

  lemma DataOnConnCost(s: State, cid: u32, n: u64, payload: Bytes, accepts: nat -> bool)
    requires cid in s.conns
    ensures var t := DataOnConn(s, cid, n, payload, accepts);
            Spends(s, t, if cid !in t.conns && !s.conns[cid].eof then 1 else 4)
  {
    hide R.Offer, Reorder.Pushed, ReCost, FinishIfDone;
    ResetCost(s, cid);
    var c := s.conns[cid];
    var (w, r) := Reorder.Pushed(c.window, n, payload);
    var o := R.Offer(R.Reassembler, r.ready, 0, accepts);
    var c' := c.(window := w, output := c.output + o.accepted);
    SetConnCost(s, cid, c');
    FinishCost(s, cid, CloseWriteHalf(c'));
  }

  lemma DataCost(s: State, cid: u32, n: u64, payload: Bytes, accepts: nat -> bool, ks: seq<u32>, s': State)
    requires DataStep(s, cid, n, payload, accepts, ks, s')
    ensures Spends(s, s', if cid in s.conns && cid !in s'.conns && !s.conns[cid].eof then 1 else 4)
  {
    hide ReCost, DataOnConn, Placed, EvictionRun, EvictAll, FailPending;
    if cid in s.conns {
      DataOnConnCost(s, cid, n, payload, accepts);
    } else if cid in s.closed {
      ResetLogCost(s, cid);
    } else if cid !in s.pending && |s.pending| >= MAX_PENDING_CIDS {
      FailPendingCost(s, cid);
    } else {
      EvictAllCost(s, Exempt(s, cid), |payload|, ks);
      PlacedCost(EvictAll(s, ks), cid, Data(n, payload), cid in s.pending);
    }
  }

  lemma FinCost(s: State, cid: u32, n: u64)
    ensures var t := FinStep(s, cid, n);
            Spends(s, t, 4) && (cid in s.conns && cid !in t.conns ==> s.conns[cid].eof)
  {
    hide ReCost, FinishIfDone, Enqueue, FailPending;
    if cid in s.conns {
      FinishCost(s, cid, StartHalfClose(s.conns[cid], n));
    } else {
      EnqueueCost(s, cid, Fin(n));
      EnqueueFrame(s, cid, Fin(n));
      FailPendingCost(s, cid);
    }
  }

  lemma EnqueueFrame(s: State, cid: u32, m: Msg)
    ensures cid in s.pending ==> Enqueue(s, cid, m).rsts == s.rsts
    ensures Enqueue(NewEntry(s, cid), cid, m).rsts == s.rsts
  {
  }

  lemma RstCost(s: State, cid: u32)
    ensures var t := RstStep(s, cid);
            Spends(s, t, if cid in s.conns && cid !in t.conns && !s.conns[cid].eof then -2 else 1)
  {
    hide ReCost, MarkCancelled;
    TeardownCost(s, cid);
    MarkCancelledCost(s, cid);
    TombstoneCost(MarkCancelled(s, cid), cid);
  }

  lemma SynCost(s: State, cid: u32, valid: bool)
    ensures Spends(s, SynBegin(s, cid, valid), 11) && SynBegin(s, cid, valid).conns == s.conns
  {
    hide ReCost, RemovePending, NewEntry;
    if cid !in s.conns && cid !in s.handshaking {
      var t := if cid in s.pending then s else NewEntry(s, cid);
      NewEntryCost(s, cid);
      RemovePendingCost(t, cid);
      RemovePendingFrame(t, cid);
      var u := RemovePending(t, cid);
      TombstoneCost(u, cid);
      ResetLogCost(Tombstone(u, cid), cid);
      ArmedCost(t, cid);
    }
  }

  lemma NewEntryCost(s: State, cid: u32)
    ensures var t := NewEntry(s, cid);
            && ReCost(t) <= ReCost(s) + 3 && t.rsts == s.rsts && t.conns == s.conns && t.closed == s.closed
            && cid in t.pending && t.handshaking == s.handshaking
  {
  }

  lemma RemovePendingFrame(s: State, cid: u32)
    ensures RemovePending(s, cid).rsts == s.rsts && RemovePending(s, cid).conns == s.conns
  {
  }

  lemma ArmedCost(s: State, cid: u32)
    requires cid in s.pending && cid !in s.handshaking
    ensures ReCost(s.(pending := s.pending[cid := s.pending[cid].(hasCancel := true)],
                      handshaking := s.handshaking[cid := Handshake(s.now, false)])) == ReCost(s) + 7
  {
  }

  lemma EndHandshakeCost(s: State, cid: u32)
    requires cid in s.handshaking
    ensures ReCost(EndHandshake(s, cid)) + 7 <= ReCost(s)
    ensures EndHandshake(s, cid).rsts == s.rsts && EndHandshake(s, cid).conns == s.conns
  {
    RemovePendingCost(s, cid);
    RemovedSize(s.handshaking, cid);
  }

  /** A connect that succeeds costs no more than the handshake it ends, whether the connection is
      established, finished at once, or torn down with its reader already started. */
  lemma ConnectedCost(s: State, cid: u32, offers: nat -> nat -> bool)
    requires cid in s.handshaking
    ensures var t := SynConnected(s, cid, offers);
            Spends(s, t, if cid !in t.conns && cid !in s.closed then -3 else 0)
  {
    hide ReCost, Replay, EndHandshake, StartHalfClose;
    EndHandshakeCost(s, cid);
    var t := EndHandshake(s, cid);
    TombstoneCost(t, cid);
    ResetLogCost(Tombstone(t, cid), cid);
    TeardownCost(t, cid);
    if cid !in s.closed {
      SetConnCost(t, cid, FreshConn(s));
      if cid in s.pending {
        var p := Replay(FreshConn(s), s.pending[cid].frames, offers);
        SetConnCost(t, cid, p.conn);
        if p.fin != [] {
          SetConnCost(t, cid, StartHalfClose(p.conn, p.fin[0]));
        }
      }
    }
  }

  function Income(e: Event): nat {
    match e
    case OnSyn(_, _) => 11
    case OnData(_, _, _, _, _) => 4
    case OnFin(_, _) => 4
    case OnRst(_) => 1
    case _ => 0
  }

  /** The reader of a connection torn down by someone else may be waiting to send its FIN, and
      then still sends an RST. */
  predicate Abandons(s: State, e: Event, s': State) {
    match e
    case Tick(_) => false
    case EgressEof(_, _) => false
    case EgressSendFailed(_) => false
    case Connected(cid, _) => cid !in s'.conns && cid !in s.closed
    case _ => e.cid in s.conns && !s.conns[e.cid].eof && e.cid !in s'.conns
  }

  predicate Silent(e: Event) {
    e.Tick? || e.TombstoneExpires? || e.ForceClose?
  }

  function Outlay(s: State, e: Event, s': State): int {
    (if Abandons(s, e, s') then 3 else 0) + if e.EgressEof? && e.finSent then 2 else 0
  }

  lemma EofCost(s: State, cid: u32, finSent: bool, s': State)
    requires Next(s, EgressEof(cid, finSent), s')
    ensures Spends(s, s', if finSent then -2 else 0)
  {
    hide ReCost, FinishIfDone;
    var t := if finSent then s else SendRst(s, cid);
    ResetLogCost(s, cid);
    FinishCost(t, cid, s.conns[cid].(eof := true));
  }

  lemma SilentCost(s: State, e: Event, s': State)
    requires Next(s, e, s') && Silent(e)
    ensures s'.rsts == s.rsts && ReCost(s') == ReCost(s) && !Abandons(s, e, s')
  {
    hide MapSum;
    if e.ForceClose? {
      SetConnCost(s, e.cid, s.conns[e.cid].(hc := 2));
    }
  }

  lemma StepCost(s: State, e: Event, s': State)
    requires Next(s, e, s') && !Silent(e)
    ensures Spends(s, s', Income(e) - Outlay(s, e, s'))
  {
    hide ReCost, DataStep, FinStep, RstStep, SynBegin, SynConnected, EndHandshake, FinishIfDone, Evict;
    match e
    case OnData(cid, n, payload, accepts, ks) => DataCost(s, cid, n, payload, accepts, ks, s');
    case OnFin(cid, n) => FinCost(s, cid, n);
    case OnRst(cid) => RstCost(s, cid);
    case OnSyn(cid, valid) => SynCost(s, cid, valid);
    case Connected(cid, offers) => ConnectedCost(s, cid, offers);
    case ConnectFailed(cid) =>
      EndHandshakeCost(s, cid);
      TombstoneCost(EndHandshake(s, cid), cid);
      ResetLogCost(Tombstone(EndHandshake(s, cid), cid), cid);
    case ConnectCancelled(cid) =>
      EndHandshakeCost(s, cid);
      TombstoneCost(EndHandshake(s, cid), cid);
    case EgressEof(cid, finSent) => EofCost(s, cid, finSent, s');
    case EgressSendFailed(cid) => ResetCost(s, cid);
    case IdleSweep(cid) => ResetCost(s, cid);
    case StaleSweep(cid) => EvictCost(s, cid);
    case _ =>
  }
}
