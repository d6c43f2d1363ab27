/** The mutable table behind the reassembler's queues: the reservation loop, the stale sweep and
    the handlers of frames that arrive ahead of their SYN, each proved to perform the step of the
    state machine. */
module PendingTable {
  import opened Wire
  import opened Reassembler
  import opened PendingBudget
  import R = Receiver

  // ----- eviction, one entry at a time

  /** A legitimate beginning of an eviction run. */
  ghost predicate EvictionPrefix(s: State, exclude: set<u32>, need: nat, ks: seq<u32>)
    decreases |ks|
  {
    ks == [] || (!Fits(s, need) && Oldest(s, exclude, ks[0]) && EvictionPrefix(Evict(s, ks[0]), exclude, need, ks[1..]))
  }

  lemma {:induction false} EvictAllSnoc(s: State, ks: seq<u32>, k: u32)
    ensures EvictAll(s, ks + [k]) == Evict(EvictAll(s, ks), k)
    decreases |ks|
  {
    hide Evict;
    if ks == [] {
      assert EvictAll(Evict(s, k), []) == Evict(s, k);
      assert ([] + [k])[1..] == [];
    } else {
      assert (ks + [k])[1..] == ks[1..] + [k];
      EvictAllSnoc(Evict(s, ks[0]), ks[1..], k);
    }
  }

  lemma {:induction false} EvictionPrefixSnoc(s: State, exclude: set<u32>, need: nat, ks: seq<u32>, k: u32)
    requires EvictionPrefix(s, exclude, need, ks)
    requires !Fits(EvictAll(s, ks), need) && Oldest(EvictAll(s, ks), exclude, k)
    ensures EvictionPrefix(s, exclude, need, ks + [k])
    decreases |ks|
  {
    hide Evict, Oldest;
    if ks == [] {
      assert ([] + [k])[1..] == [];
    } else {
      assert (ks + [k])[1..] == ks[1..] + [k];
      EvictionPrefixSnoc(Evict(s, ks[0]), exclude, need, ks[1..], k);
    }
  }

  lemma {:induction false} EvictionPrefixEnds(s: State, exclude: set<u32>, need: nat, ks: seq<u32>)
    requires EvictionPrefix(s, exclude, need, ks)
    requires var t := EvictAll(s, ks); Fits(t, need) || NoCandidate(t, exclude)
    ensures EvictionRun(s, exclude, need, ks)
    decreases |ks|
  {
    hide Evict;
    if ks == [] {
      assert EvictAll(s, ks) == s;
    } else {
      EvictionPrefixEnds(Evict(s, ks[0]), exclude, need, ks[1..]);
      assert Candidate(s, exclude, ks[0]);
    }
  }

  lemma EvictNone(s: State)
    ensures EvictAll(s, []) == s && forall exclude, need :: EvictionPrefix(s, exclude, need, [])
  {
  }

  lemma OldestIsQueued(s: State, exclude: set<u32>, k: u32)
    requires Oldest(s, exclude, k)
    ensures k in s.pending
  {
  }

  lemma EvictPending(s: State, k: u32)
    ensures Evict(s, k).pending == s.pending - {k}
  {
  }

  class Table {
    var now: nat
    var pending: map<u32, Entry>
    var pendingBytes: int
    var closed: map<u32, nat>
    var handshaking: map<u32, Handshake>
    var rsts: seq<u32>
    ghost const limit: nat
    ghost var conns: map<u32, Conn>

    ghost function Model(): State
      reads this
    {
      State(now, limit, conns, pending, pendingBytes, closed, handshaking, rsts)
    }

    method Notify(cid: u32)
      modifies this`handshaking
      ensures Model() == NotifyHandshake(old(Model()), cid)
    {
      if cid in pending && pending[cid].hasCancel && cid in handshaking {
        handshaking := handshaking[cid := handshaking[cid].(notified := true)];
      }
    }

    method RemovePending(cid: u32)
      modifies this`pending, this`pendingBytes
      ensures Model() == Reassembler.RemovePending(old(Model()), cid)
    {
      if cid in pending {
        pendingBytes := pendingBytes - pending[cid].bytes;
        pending := pending - {cid};
      }
    }

    method Drop(cid: u32)
      modifies this`pending, this`pendingBytes, this`closed, this`handshaking, this`rsts
      ensures Model() == Evict(old(Model()), cid)
    {
      Notify(cid);
      RemovePending(cid);
      closed := closed[cid := now];
      rsts := rsts + [cid];
    }

    method FailPending(cid: u32)
      modifies this`pending, this`closed, this`handshaking, this`rsts
      ensures Model() == Reassembler.FailPending(old(Model()), cid)
    {
      Notify(cid);
      if cid in pending {
        pending := pending[cid := pending[cid].(cancelled := true)];
      }
      closed := closed[cid := now];
      rsts := rsts + [cid];
    }

    /** The oldest entry that may go, if any. */
    method OldestEntry(exclude: set<u32>) returns (found: bool, oldest: u32)
      ensures found ==> Oldest(Model(), exclude, oldest)
      ensures !found ==> NoCandidate(Model(), exclude)
    {
      var todo := pending.Keys - exclude;
      found, oldest := false, 0;
      while todo != {}
        invariant todo <= pending.Keys - exclude
        invariant found ==> oldest in pending.Keys - exclude - todo
        invariant found ==> forall j :: j in pending.Keys - exclude - todo ==> pending[oldest].since <= pending[j].since
        invariant !found ==> todo == pending.Keys - exclude
        decreases todo
      {
        var k :| k in todo;
        if !found || pending[k].since < pending[oldest].since {
          found, oldest := true, k;
        }
        todo := todo - {k};
      }
      assert forall k :: Candidate(Model(), exclude, k) ==> k in pending.Keys - exclude;
    }

    /** Reserve `need` bytes, evicting the oldest other entries while over budget. */
    method TryReserve(exclude: set<u32>, need: nat) returns (ok: bool, ghost ks: seq<u32>)
      modifies this`pending, this`pendingBytes, this`closed, this`handshaking, this`rsts
      ensures EvictionRun(old(Model()), exclude, need, ks)
      ensures var t := EvictAll(old(Model()), ks);
              && ok == Fits(t, need)
              && Model() == if ok then t.(pendingBytes := t.pendingBytes + need) else t
    {
      hide NoCandidate, Oldest, NotifyHandshake;
      ks := [];
      EvictNone(Model());
      while true
        invariant Model() == EvictAll(old(Model()), ks)
        invariant EvictionPrefix(old(Model()), exclude, need, ks)
        decreases |pending|
      {
        if pendingBytes + need <= MAX_PENDING_BYTES {
          EvictionPrefixEnds(old(Model()), exclude, need, ks);
          pendingBytes := pendingBytes + need;
          return true, ks;
        }
        var found, k := OldestEntry(exclude);
        if !found {
          EvictionPrefixEnds(old(Model()), exclude, need, ks);
          return false, ks;
        }
        EvictionPrefixSnoc(old(Model()), exclude, need, ks, k);
        EvictAllSnoc(old(Model()), ks, k);
        assert (pending - {k}).Keys == pending.Keys - {k};
        assert k in pending by {
          OldestIsQueued(Model(), exclude, k);
        }
        EvictPending(Model(), k);
        Drop(k);
        ks := ks + [k];
      }
    }

    /** Place a frame whose bytes are already reserved. */
    method Place(cid: u32, n: u64, payload: Bytes, queued: bool)
      requires pendingBytes <= MAX_PENDING_BYTES && (queued <==> cid in pending)
      modifies this`pending, this`pendingBytes, this`closed, this`handshaking, this`rsts
      ensures var s := old(Model()).(pendingBytes := old(pendingBytes) - |payload|);
              Model() == Placed(s, cid, Data(n, payload), queued)
    {
      if !queued {
        pending := pending[cid := Entry([Data(n, payload)], now, |payload|, false, false)];
        assert [] + [Data(n, payload)] == [Data(n, payload)];
      } else if |pending[cid].frames| < MAX_PENDING_FRAMES_PER_CID {
        var e := pending[cid];
        pending := pending[cid := e.(frames := e.frames + [Data(n, payload)], bytes := e.bytes + |payload|)];
      } else {
        pendingBytes := pendingBytes - |payload|;
        FailPending(cid);
      }
    }

    /** DATA for an identifier that is neither established nor tombstoned. */
    method QueueData(cid: u32, n: u64, payload: Bytes, accepts: nat -> bool) returns (ghost ks: seq<u32>)
      requires Budget(Model()) && |payload| <= MAX_PAYLOAD
      requires cid !in conns && cid !in closed
      modifies this`pending, this`pendingBytes, this`closed, this`handshaking, this`rsts
      ensures DataStep(old(Model()), cid, n, payload, accepts, ks, Model())
    {
      hide EvictionRun, EvictAll, Budget, Reassembler.FailPending;
      ghost var s := Model();
      var queued := cid in pending;
      ks := [];
      if !queued && |pending| >= MAX_PENDING_CIDS {
        FailPending(cid);
        return;
      }
      var ok;
      ok, ks := TryReserve(if queued then {cid} else {}, |payload|);
      EvictionEffect(s, Exempt(s, cid), |payload|, ks);
      if !ok {
        FailPending(cid);
      } else {
        Place(cid, n, payload, queued);
      }
    }

    /** FIN for an identifier that is neither established nor tombstoned. */
    method QueueFin(cid: u32, n: u64)
      requires cid !in conns && cid !in closed
      modifies this`pending, this`closed, this`handshaking, this`rsts
      ensures Model() == FinStep(old(Model()), cid, n)
    {
      if cid in pending {
        var e := pending[cid];
        if |e.frames| < MAX_PENDING_FRAMES_PER_CID {
          pending := pending[cid := e.(frames := e.frames + [Fin(n)])];
        } else {
          FailPending(cid);
        }
      } else if |pending| < MAX_PENDING_CIDS {
        pending := pending[cid := Entry([Fin(n)], now, 0, false, false)];
        assert [] + [Fin(n)] == [Fin(n)];
      } else {
        FailPending(cid);
      }
    }

    /** Sweep every entry past its time to live: exactly those go, each with a tombstone and a
        reset. */
    method SweepStale() returns (ghost ks: seq<u32>)
      modifies this`pending, this`pendingBytes, this`closed, this`handshaking, this`rsts
      ensures Model() == EvictAll(old(Model()), ks)
      ensures forall k :: k in ks <==> k in old(pending) && now >= old(pending)[k].since + PENDING_TTL
      ensures pending == old(pending) - (set k | k in ks)
      ensures forall i, j :: 0 <= i < j < |ks| ==> ks[i] != ks[j]
    {
      hide EvictAll, NotifyHandshake;
      var todo := pending.Keys;
      ks := [];
      EvictNone(Model());
      while todo != {}
        invariant Model() == EvictAll(old(Model()), ks)
        invariant todo <= pending.Keys
        invariant forall k :: k in ks <==> k in old(pending) && k !in todo && now >= old(pending)[k].since + PENDING_TTL
        invariant pending == old(pending) - (set k | k in ks)
        invariant forall i, j :: 0 <= i < j < |ks| ==> ks[i] != ks[j]
        decreases todo
      {
        var k :| k in todo;
        todo := todo - {k};
        if now >= pending[k].since + PENDING_TTL {
          EvictAllSnoc(old(Model()), ks, k);
          ghost var swept := set j | j in ks;
          EvictPending(Model(), k);
          Drop(k);
          ks := ks + [k];
          assert (set j | j in ks) == swept + {k};
        }
      }
    }
  }

  /** Replay the frames queued ahead of a SYN into the freshly established connection. */
  method ReplayInto(conn: R.Conn, frames: seq<Msg>, offers: nat -> nat -> bool) returns (fin: seq<u64>, failed: bool)
    requires conn.Valid() && conn.side.Reassembler?
    modifies conn, conn.reorder
    ensures conn.Valid()
    ensures Replayed(Established(conn), fin, failed) == Replay(old(Established(conn)), frames, offers)
  {
    fin, failed := [], false;
    var i := 0;
    while i < |frames| && !failed
      invariant 0 <= i <= |frames|
      invariant conn.Valid()
      invariant Replayed(Established(conn), fin, failed) == Replay(old(Established(conn)), frames[..i], offers)
    {
      assert frames[..i + 1][..i] == frames[..i];
      match frames[i] {
        case Data(n, payload) =>
          var taken;
          failed, taken := conn.OnFrame(n, payload, offers(i));
        case Fin(n) => fin := [n];
      }
      i := i + 1;
    }
    if failed {
      ReplayStopped(old(Established(conn)), frames, i, offers);
    } else {
      assert frames[..|frames|] == frames;
    }
  }

  ghost function Established(conn: R.Conn): Conn
    reads conn, conn.reorder
  {
    Conn(conn.reorder.Model(), conn.output, false, 0, 0, false)
  }

  lemma {:induction false} ReplayStopped(c: Conn, frames: seq<Msg>, i: nat, offers: nat -> nat -> bool)
    requires i <= |frames| && Replay(c, frames[..i], offers).failed
    ensures Replay(c, frames, offers) == Replay(c, frames[..i], offers)
    decreases |frames|
  {
    if i == |frames| {
      assert frames[..i] == frames;
    } else {
      var front := frames[..|frames| - 1];
      assert front[..i] == frames[..i];
      ReplayStopped(c, front, i, offers);
    }
  }
}
