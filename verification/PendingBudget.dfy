/** The byte budget for frames queued ahead of their SYN: exact accounting in every step, and
    the eviction loop that makes room. */
module PendingBudget {
  import opened Wire
  import opened MapSums
  import opened Reassembler
  import Reorder
  import R = Receiver

  ghost predicate EntryOk(e: Entry) {
    && e.bytes == DataBytes(e.frames)
    && |e.frames| <= MAX_PENDING_FRAMES_PER_CID
    && forall i :: 0 <= i < |e.frames| ==> MsgBytes(e.frames[i]) <= MAX_PAYLOAD
  }

  /** The counter is the sum of the entries, each entry's count is the size of its queued DATA,
      and the total stays within 64 MB. */
  ghost predicate Budget(s: State) {
    && s.pendingBytes == MapSum(s.pending, EntryBytes)
    && s.pendingBytes <= MAX_PENDING_BYTES
    && forall c :: c in s.pending ==> EntryOk(s.pending[c])
  }

  lemma {:induction false} DataBytesBound(frames: seq<Msg>)
    requires forall i :: 0 <= i < |frames| ==> MsgBytes(frames[i]) <= MAX_PAYLOAD
    ensures DataBytes(frames) <= |frames| * MAX_PAYLOAD
  {
    if frames != [] {
      DataBytesBound(frames[..|frames| - 1]);
    }
  }

  lemma RemovePendingBudget(s: State, cid: u32)
    requires Budget(s)
    ensures Budget(RemovePending(s, cid))
  {
    if cid in s.pending {
      MapSumSplit(s.pending, EntryBytes, cid);
    }
  }

  lemma EvictBudget(s: State, cid: u32)
    requires Budget(s)
    ensures Budget(Evict(s, cid))
  {
    RemovePendingBudget(s, cid);
  }

  lemma MarkCancelledBudget(s: State, cid: u32)
    requires Budget(s)
    ensures Budget(MarkCancelled(s, cid)) && Budget(FailPending(s, cid))
  {
    if cid in s.pending {
      MapSumUpdate(s.pending, EntryBytes, cid, s.pending[cid].(cancelled := true));
    }
  }

  lemma NewEntryBudget(s: State, cid: u32)
    requires Budget(s) && cid !in s.pending
    ensures Budget(NewEntry(s, cid))
  {
    MapSumInsert(s.pending, EntryBytes, cid, Entry([], s.now, 0, false, false));
  }

  lemma EntryGrows(e: Entry, m: Msg)
    requires EntryOk(e) && |e.frames| < MAX_PENDING_FRAMES_PER_CID && MsgBytes(m) <= MAX_PAYLOAD
    ensures EntryOk(e.(frames := e.frames + [m], bytes := e.bytes + MsgBytes(m)))
  {
    assert (e.frames + [m])[..|e.frames|] == e.frames;
  }

  lemma EnqueueBudget(s: State, cid: u32, m: Msg)
    requires Budget(s) && cid in s.pending && Fits(s, MsgBytes(m)) && MsgBytes(m) <= MAX_PAYLOAD
    requires |s.pending[cid].frames| < MAX_PENDING_FRAMES_PER_CID
    ensures Budget(Enqueue(s, cid, m))
  {
    hide EntryOk, MapSum;
    var e := s.pending[cid];
    var e' := e.(frames := e.frames + [m], bytes := e.bytes + MsgBytes(m));
    EntryGrows(e, m);
    MapSumUpdate(s.pending, EntryBytes, cid, e');
  }

  // ----- the eviction loop

  ghost predicate SameHandshakes(s: State, s': State) {
    && s'.handshaking.Keys == s.handshaking.Keys
    && forall c :: c in s.handshaking ==> s'.handshaking[c].start == s.handshaking[c].start
  }

  /** What evicting a run of entries does and does not touch. */
  ghost predicate EvictedExactly(s: State, ks: seq<u32>, s': State) {
    && s'.conns == s.conns && s'.now == s.now && s'.limit == s.limit
    && s'.rsts == s.rsts + ks
    && s'.pending == s.pending - (set k | k in ks)
    && (forall c :: c in s'.closed <==> c in s.closed || c in ks)
    && (forall c :: c in s'.closed ==> s'.closed[c] == if c in ks then s.now else s.closed[c])
    && SameHandshakes(s, s')
  }

  lemma {:induction false} EvictionEffect(s: State, exclude: set<u32>, need: nat, ks: seq<u32>)
    requires Budget(s) && EvictionRun(s, exclude, need, ks)
    ensures EvictedExactly(s, ks, EvictAll(s, ks)) && Budget(EvictAll(s, ks))
    ensures forall k :: k in ks ==> Candidate(s, exclude, k)
    decreases |ks|
  {
    if ks != [] {
      var t := Evict(s, ks[0]);
      EvictBudget(s, ks[0]);
      EvictionEffect(t, exclude, need, ks[1..]);
      EvictedChain(s, ks, t, EvictAll(s, ks));
    }
  }

  lemma EvictFields(s: State, k: u32)
    requires k in s.pending
    ensures var t := Evict(s, k);
            && t.conns == s.conns && t.now == s.now && t.limit == s.limit
            && t.pending == s.pending - {k} && t.rsts == s.rsts + [k] && t.closed == s.closed[k := s.now]
            && SameHandshakes(s, t)
  {
  }

  lemma EvictedChain(s: State, ks: seq<u32>, t: State, u: State)
    requires ks != [] && ks[0] in s.pending && t == Evict(s, ks[0]) && EvictedExactly(t, ks[1..], u)
    ensures EvictedExactly(s, ks, u)
  {
    hide Evict, SameHandshakes;
    EvictFields(s, ks[0]);
    SameHandshakesChain(s, t, u);
    var k0, rest := ks[0], ks[1..];
    assert ks == [k0] + rest;
    assert (set k | k in ks) == {k0} + (set k | k in rest);
    assert u.rsts == s.rsts + ks;
    MapMinus(s.pending, k0, set k | k in rest);
  }

  lemma SameHandshakesChain(s: State, t: State, u: State)
    requires SameHandshakes(s, t) && SameHandshakes(t, u)
    ensures SameHandshakes(s, u)
  {
  }

  lemma MapMinus<V>(m: map<u32, V>, k: u32, ks: set<u32>)
    ensures m - {k} - ks == m - ({k} + ks)
  {
  }

  /** With the oldest entries gone first and one frame to place, room is always found: the one
      entry that may not be evicted holds at most 256 frames of at most 65535 bytes. */
  lemma {:induction false} ReservationSucceeds(s: State, exclude: set<u32>, need: nat, ks: seq<u32>)
    requires Budget(s) && EvictionRun(s, exclude, need, ks)
    requires |exclude| <= 1 && need <= MAX_PAYLOAD
    ensures EvictAll(s, ks).pendingBytes + need <= MAX_PENDING_BYTES
    decreases |ks|
  {
    if ks != [] {
      EvictBudget(s, ks[0]);
      ReservationSucceeds(Evict(s, ks[0]), exclude, need, ks[1..]);
    } else if NoCandidate(s, exclude) {
      LeftoverFits(s, exclude);
    }
  }

  lemma LeftoverFits(s: State, exclude: set<u32>)
    requires Budget(s) && |exclude| <= 1 && NoCandidate(s, exclude)
    ensures s.pendingBytes <= MAX_PENDING_FRAMES_PER_CID * MAX_PAYLOAD
  {
    if c :| c in s.pending {
      assert !Candidate(s, exclude, c);
      assert |exclude - {c}| == 0;
      MapSumSplit(s.pending, EntryBytes, c);
      assert (s.pending - {c}).Keys == {} by {
        forall k | k in s.pending
          ensures k == c
        {
          assert !Candidate(s, exclude, k);
          assert k !in exclude - {c};
        }
      }
      DataBytesBound(s.pending[c].frames);
    } else {
      assert s.pending.Keys == {};
    }
  }

  /** Oldest first: entries leave in order of age, none that stays is older than one that left,
      and the excluded one stays. */
  lemma {:induction false} EvictionOldestFirst(s: State, exclude: set<u32>, need: nat, ks: seq<u32>)
    requires EvictionRun(s, exclude, need, ks)
    ensures forall i :: 0 <= i < |ks| ==> ks[i] in s.pending && ks[i] !in exclude
    ensures forall i, j :: 0 <= i < j < |ks| ==> ks[i] != ks[j] && s.pending[ks[i]].since <= s.pending[ks[j]].since
    ensures forall i, c :: 0 <= i < |ks| && c in s.pending && c !in exclude && c !in ks ==>
              s.pending[ks[i]].since <= s.pending[c].since
    decreases |ks|
  {
    hide Evict, Fits, NoCandidate;
    if ks != [] {
      var t := Evict(s, ks[0]);
      EvictFields(s, ks[0]);
      assert ks == [ks[0]] + ks[1..];
      EvictionOldestFirst(t, exclude, need, ks[1..]);
      assert forall j :: j in s.pending && j !in exclude ==> Candidate(s, exclude, j);
    }
  }

  /** No entry leaves once the frame fits. */
  lemma {:induction false} EvictionStopsWhenFits(s: State, exclude: set<u32>, need: nat, ks: seq<u32>, i: nat)
    requires EvictionRun(s, exclude, need, ks) && i < |ks|
    ensures EvictAll(s, ks[..i]).pendingBytes + need > MAX_PENDING_BYTES
    decreases |ks|
  {
    if i > 0 {
      EvictionStopsWhenFits(Evict(s, ks[0]), exclude, need, ks[1..], i - 1);
      assert ks[..i][1..] == ks[1..][..i - 1];
    }
  }

  /** The loop always reaches an end. */
  lemma {:induction false} ReservationTerminates(s: State, exclude: set<u32>, need: nat) returns (ks: seq<u32>)
    ensures EvictionRun(s, exclude, need, ks)
    decreases |s.pending|
  {
    if Fits(s, need) || NoCandidate(s, exclude) {
      ks := [];
    } else {
      var some :| Candidate(s, exclude, some);
      assert some in s.pending.Keys - exclude;
      var k := OldestExists(s, exclude, s.pending.Keys - exclude);
      assert forall j :: Candidate(s, exclude, j) ==> j in s.pending.Keys - exclude;
      assert (s.pending - {k}).Keys == s.pending.Keys - {k};
      var rest := ReservationTerminates(Evict(s, k), exclude, need);
      ks := [k] + rest;
      assert ks[1..] == rest;
    }
  }

  lemma {:induction false} OldestExists(s: State, exclude: set<u32>, among: set<u32>) returns (k: u32)
    requires among != {} && among <= s.pending.Keys - exclude
    ensures k in among && forall j :: j in among ==> s.pending[k].since <= s.pending[j].since
    decreases among
  {
    k :| k in among;
    if among != {k} {
      assert among - {k} != {};
      var j := OldestExists(s, exclude, among - {k});
      if s.pending[j].since < s.pending[k].since {
        k := j;
      }
    }
  }

  // ----- every step keeps the budget

  lemma DataQueuedBudget(s: State, cid: u32, m: Msg, ks: seq<u32>)
    requires Budget(s) && MsgBytes(m) <= MAX_PAYLOAD
    requires EvictionRun(s, Exempt(s, cid), MsgBytes(m), ks)
    ensures Budget(DataQueued(s, cid, m, ks))
  {
    EvictionEffect(s, Exempt(s, cid), MsgBytes(m), ks);
    var t := EvictAll(s, ks);
    MarkCancelledBudget(t, cid);
    if Fits(t, MsgBytes(m)) {
      if cid !in s.pending {
        NewEntryBudget(t, cid);
        EnqueueBudget(NewEntry(t, cid), cid, m);
      } else if cid in t.pending && |t.pending[cid].frames| < MAX_PENDING_FRAMES_PER_CID {
        EnqueueBudget(t, cid, m);
      }
    }
  }

  lemma DataOnConnFrame(s: State, cid: u32, n: u64, payload: Bytes, accepts: nat -> bool)
    requires cid in s.conns
    ensures var s' := DataOnConn(s, cid, n, payload, accepts);
            && s'.pending == s.pending && s'.pendingBytes == s.pendingBytes && s'.handshaking == s.handshaking
            && s'.now == s.now
  {
    hide Reorder.Pushed, R.Offer, CloseWriteHalf;
  }

  lemma DataStepBudget(s: State, cid: u32, n: u64, payload: Bytes, accepts: nat -> bool, ks: seq<u32>, s': State)
    requires Budget(s) && |payload| <= MAX_PAYLOAD && DataStep(s, cid, n, payload, accepts, ks, s')
    ensures Budget(s')
  {
    hide DataQueued, DataOnConn, EvictionRun;
    if cid in s.conns {
      DataOnConnFrame(s, cid, n, payload, accepts);
    } else if cid !in s.closed {
      if cid !in s.pending && |s.pending| >= MAX_PENDING_CIDS {
        MarkCancelledBudget(s, cid);
      } else {
        DataQueuedBudget(s, cid, Data(n, payload), ks);
      }
    }
  }

  lemma FinStepBudget(s: State, cid: u32, n: u64)
    requires Budget(s)
    ensures Budget(FinStep(s, cid, n))
  {
    hide EntryOk, MapSum, Enqueue, FailPending;
    MarkCancelledBudget(s, cid);
    if cid !in s.conns && cid !in s.closed {
      if cid in s.pending {
        if |s.pending[cid].frames| < MAX_PENDING_FRAMES_PER_CID {
          EnqueueBudget(s, cid, Fin(n));
        }
      } else if |s.pending| < MAX_PENDING_CIDS {
        NewEntryBudget(s, cid);
        EnqueueBudget(NewEntry(s, cid), cid, Fin(n));
      }
    }
  }

  /** Registering the handshake's Notify in an entry changes no count. */
  lemma ArmCancelBudget(s: State, cid: u32)
    requires Budget(s) && cid in s.pending
    ensures Budget(s.(pending := s.pending[cid := s.pending[cid].(hasCancel := true)]))
  {
    hide MapSum;
    MapSumUpdate(s.pending, EntryBytes, cid, s.pending[cid].(hasCancel := true));
  }

  lemma SynBeginBudget(s: State, cid: u32, valid: bool)
    requires Budget(s)
    ensures Budget(SynBegin(s, cid, valid))
  {
    hide EntryOk, MapSum, RemovePending;
    if cid !in s.conns && cid !in s.handshaking {
      if cid !in s.pending {
        NewEntryBudget(s, cid);
      }
      var t := if cid in s.pending then s else NewEntry(s, cid);
      RemovePendingBudget(t, cid);
      ArmCancelBudget(t, cid);
    }
  }

  lemma SynConnectedFrame(s: State, cid: u32, offers: nat -> nat -> bool)
    ensures var s', t := SynConnected(s, cid, offers), EndHandshake(s, cid);
            && s'.pending == t.pending && s'.pendingBytes == t.pendingBytes && s'.handshaking == t.handshaking
            && s'.now == s.now
  {
    hide Replay, EndHandshake, StartHalfClose, IsDone;
    EndHandshakeNow(s, cid);
  }

  lemma EndHandshakeNow(s: State, cid: u32)
    ensures EndHandshake(s, cid).now == s.now
  {
  }

  lemma StepBudget(s: State, e: Event, s': State)
    requires Budget(s) && Next(s, e, s')
    ensures Budget(s')
  {
    hide DataStep, FinStep, MarkCancelled, SynBegin, SynConnected, Evict, RemovePending, EntryOk, MapSum, IsDone;
    match e
    case OnData(cid, n, payload, accepts, ks) => DataStepBudget(s, cid, n, payload, accepts, ks, s');
    case OnFin(cid, n) => FinStepBudget(s, cid, n);
    case OnRst(cid) => MarkCancelledBudget(s, cid);
    case OnSyn(cid, valid) => SynBeginBudget(s, cid, valid);
    case Connected(cid, offers) =>
      RemovePendingBudget(s, cid);
      SynConnectedFrame(s, cid, offers);
    case ConnectFailed(cid) => RemovePendingBudget(s, cid);
    case ConnectCancelled(cid) => RemovePendingBudget(s, cid);
    case StaleSweep(cid) => EvictBudget(s, cid);
    case _ =>
  }

  lemma {:induction false} BudgetAlwaysExact(states: seq<State>, events: seq<Event>, i: nat)
    requires IsRun(states, events) && i < |states|
    ensures Budget(states[i])
  {
    if i > 0 {
      BudgetAlwaysExact(states, events, i - 1);
      StepBudget(states[i - 1], events[i - 1], states[i]);
    }
  }
}
