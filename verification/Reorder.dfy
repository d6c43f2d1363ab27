/** The bounded reorder buffer (src/reorder.rs). */
module Reorder {
  import opened Wire
  import opened MapSums

  datatype PushResult = PushResult(ready: seq<Bytes>, accepted: bool, overflow: bool)

  /** The value of a reorder buffer.  The running byte counter is not part of it: it is the
      implementation's cached `Buffered()`. */
  datatype Window = Window(expected: u64, pending: map<u64, Bytes>, maxBytes: nat, maxEntries: nat) {
    ghost function Buffered(): nat {
      MapSum(pending, Size)
    }

    /** Room for one more out-of-order payload under both caps. */
    ghost predicate Fits(payload: Bytes) {
      |pending| < maxEntries && Buffered() + |payload| <= maxBytes
    }

    predicate IsCompleteThrough(s: u64) {
      expected >= s
    }

    /** The sequence number has been taken in, either delivered or buffered. */
    predicate Has(s: u64) {
      s < expected || s in pending
    }
  }

  function Fresh(maxBytes: nat): Window {
    var entries := maxBytes / MAX_PAYLOAD;
    Window(1, map[], maxBytes, if entries < MAX_REORDER_WINDOW then MAX_REORDER_WINDOW else entries)
  }

  datatype Drained = Drained(ready: seq<Bytes>, expected: u64, pending: map<u64, Bytes>)

  /** Take the run of consecutive buffered payloads that starts at `expected`. */
  function Drain(expected: u64, pending: map<u64, Bytes>): Drained
    decreases |pending|
  {
    if expected !in pending then Drained([], expected, pending)
    else
      assert (pending - {expected}).Keys == pending.Keys - {expected};
      var d := Drain(Succ(expected), pending - {expected});
      Drained([pending[expected]] + d.ready, d.expected, d.pending)
  }

  ghost function Pushed(w: Window, s: u64, payload: Bytes): (Window, PushResult) {
    if s < w.expected then
      (w, PushResult([], false, false))
    else if s == w.expected then
      var d := Drain(Succ(s), w.pending);
      (w.(expected := d.expected, pending := d.pending), PushResult([payload] + d.ready, true, false))
    else if s in w.pending then
      (w, PushResult([], false, false))
    else if w.Fits(payload) then
      (w.(pending := w.pending[s := payload]), PushResult([], true, false))
    else
      (w, PushResult([], false, true))
  }

  class ReorderBuf {
    var expected: u64
    var pending: map<u64, Bytes>
    var pendingBytes: nat
    const maxBytes: nat
    const maxEntries: nat

    /** The running counter is exact. */
    ghost predicate Valid()
      reads this
    {
      pendingBytes == Model().Buffered()
    }

    ghost function Model(): Window
      reads this
    {
      Window(expected, pending, maxBytes, maxEntries)
    }

    constructor WithLimit(maxBytes: nat)
      ensures Valid() && Model() == Fresh(maxBytes)
    {
      this.expected := 1;
      this.pending := map[];
      this.pendingBytes := 0;
      this.maxBytes := maxBytes;
      var entries := maxBytes / MAX_PAYLOAD;
      this.maxEntries := if entries < MAX_REORDER_WINDOW then MAX_REORDER_WINDOW else entries;
    }

    method Push(s: u64, payload: Bytes) returns (r: PushResult)
      requires Valid()
      modifies this
      ensures Valid()
      ensures (Model(), r) == Pushed(old(Model()), s, payload)
    {
      hide Drain, MapSum;
      if s < expected {
        return PushResult([], false, false);
      }
      if s == expected {
        var ready := [payload];
        expected := Succ(expected);
        ghost var d := Drain(expected, pending);
        while expected in pending
          invariant Valid()
          invariant Drain(expected, pending).expected == d.expected
          invariant Drain(expected, pending).pending == d.pending
          invariant ready + Drain(expected, pending).ready == [payload] + d.ready
          decreases |pending|
        {
          var chunk := pending[expected];
          MapSumSplit(pending, Size, expected);
          DrainStep(expected, pending);
          pendingBytes := pendingBytes - |chunk|;
          pending := pending - {expected};
          ready := ready + [chunk];
          expected := Succ(expected);
        }
        DrainEnd(expected, pending);
        assert ready == [payload] + d.ready;
        return PushResult(ready, true, false);
      }
      var canBuffer := |pending| < maxEntries && pendingBytes + |payload| <= maxBytes;
      if s in pending {
        return PushResult([], false, false);
      }
      if canBuffer {
        MapSumInsert(pending, Size, s, payload);
        pendingBytes := pendingBytes + |payload|;
        pending := pending[s := payload];
        return PushResult([], true, false);
      }
      return PushResult([], false, true);
    }

    method IsCompleteThrough(s: u64) returns (complete: bool)
      ensures complete == Model().IsCompleteThrough(s)
    {
      complete := expected >= s;
    }
  }

  lemma DrainStep(e: u64, p: map<u64, Bytes>)
    requires e in p
    ensures |p - {e}| < |p|
    ensures var d, rest := Drain(e, p), Drain(Succ(e), p - {e});
            d == Drained([p[e]] + rest.ready, rest.expected, rest.pending)
  {
    assert (p - {e}).Keys == p.Keys - {e};
  }

  lemma DrainEnd(e: u64, p: map<u64, Bytes>)
    requires e !in p
    ensures Drain(e, p) == Drained([], e, p)
  {
  }

  // ----- the buffer as a set of received sequence numbers

  datatype Arrival = Arrival(s: u64, payload: Bytes)
  datatype Outcome = Outcome(window: Window, delivered: seq<Bytes>, overflowed: bool)

  /** Push a whole trace of arrivals, stopping at the first overflow. */
  ghost function PushAll(w: Window, trace: seq<Arrival>): Outcome {
    if trace == [] then Outcome(w, [], false)
    else
      var a := trace[|trace| - 1];
      var o := PushAll(w, trace[..|trace| - 1]);
      if o.overflowed then o
      else
        var (w', r) := Pushed(o.window, a.s, a.payload);
        Outcome(w', o.delivered + r.ready, r.overflow)
  }

  /** The first payload that arrived under each sequence number (numbering starts at 1). */
  ghost function Received(trace: seq<Arrival>): map<u64, Bytes> {
    if trace == [] then map[]
    else
      var a := trace[|trace| - 1];
      Learn(Received(trace[..|trace| - 1]), a)
  }

  /** No arrival uses the sequence number at which the u64 counter wraps. */
  ghost predicate NoWrap(trace: seq<Arrival>) {
    forall i :: 0 <= i < |trace| ==> trace[i].s < U64_MAX
  }

  ghost predicate Covers(m: map<u64, Bytes>, lo: nat, hi: nat) {
    forall k: u64 :: lo <= k < hi ==> k in m
  }

  /** `chunks` are the payloads `lo..hi-1` of `m`, in order. */
  ghost predicate Lists(chunks: seq<Bytes>, m: map<u64, Bytes>, lo: nat, hi: nat) {
    && lo + |chunks| == hi <= U64_MAX
    && Covers(m, lo, hi)
    && forall i :: 0 <= i < |chunks| ==> chunks[i] == m[lo + i]
  }

  ghost function Above(m: map<u64, Bytes>, e: u64): map<u64, Bytes> {
    map k | k in m && k > e :: m[k]
  }

  /** `expected` is the least missing number, the buffer holds what lies above it, and the
      output is what lies below it. */
  ghost predicate Represents(w: Window, delivered: seq<Bytes>, m: map<u64, Bytes>) {
    && 1 <= w.expected
    && Lists(delivered, m, 1, w.expected)
    && w.expected !in m
    && w.pending == Above(m, w.expected)
  }

  lemma {:induction false} DrainTakesRun(e: u64, p: map<u64, Bytes>, m: map<u64, Bytes>)
    requires U64_MAX !in m
    requires forall k :: k in p <==> k in m && k >= e
    requires forall k :: k in p ==> p[k] == m[k]
    ensures var d := Drain(e, p);
            && Lists(d.ready, m, e, d.expected) && d.expected !in m
            && d.pending == Above(m, d.expected)
    decreases |p|
  {
    if e in p {
      var p' := p - {e};
      assert p'.Keys == p.Keys - {e};
      DrainTakesRun(e + 1, p', m);
      var d' := Drain(e + 1, p');
      assert Lists([p[e]], m, e, e + 1);
      ListsAppend([p[e]], d'.ready, m, e, e + 1, d'.expected);
    }
  }

  lemma ListsAppend(a: seq<Bytes>, b: seq<Bytes>, m: map<u64, Bytes>, lo: nat, mid: nat, hi: nat)
    requires Lists(a, m, lo, mid) && Lists(b, m, mid, hi)
    ensures Lists(a + b, m, lo, hi)
  {
  }

  ghost function Learn(m: map<u64, Bytes>, a: Arrival): map<u64, Bytes> {
    if a.s == 0 || a.s in m then m else m[a.s := a.payload]
  }

  lemma PushRepresents(w: Window, delivered: seq<Bytes>, m: map<u64, Bytes>, a: Arrival)
    requires Represents(w, delivered, m) && U64_MAX !in m && a.s < U64_MAX
    requires !Pushed(w, a.s, a.payload).1.overflow
    ensures var (w', r) := Pushed(w, a.s, a.payload); Represents(w', delivered + r.ready, Learn(m, a))
  {
    if a.s == w.expected {
      PushNextRepresents(w, delivered, m, a);
    } else {
      hide Drain, MapSum;
      assert delivered + [] == delivered;
      if a.s > w.expected && a.s !in m {
        assert w.pending[a.s := a.payload] == Above(Learn(m, a), w.expected);
      }
    }
  }

  lemma PushNextRepresents(w: Window, delivered: seq<Bytes>, m: map<u64, Bytes>, a: Arrival)
    requires Represents(w, delivered, m) && U64_MAX !in m && a.s < U64_MAX && a.s == w.expected
    ensures var (w', r) := Pushed(w, a.s, a.payload); Represents(w', delivered + r.ready, Learn(m, a))
  {
    var m', d := Learn(m, a), Drain(a.s + 1, w.pending);
    DrainTakesRun(a.s + 1, w.pending, m');
    hide Drain, MapSum;
    assert Lists(delivered, m', 1, a.s);
    assert Lists([a.payload], m', a.s, a.s + 1);
    ListsAppend([a.payload], d.ready, m', a.s, a.s + 1, d.expected);
    ListsAppend(delivered, [a.payload] + d.ready, m', 1, a.s, d.expected);
  }

  lemma {:induction false} ReceivedKeys(trace: seq<Arrival>)
    requires NoWrap(trace)
    ensures 0 !in Received(trace) && U64_MAX !in Received(trace)
  {
    if trace != [] {
      ReceivedKeys(trace[..|trace| - 1]);
    }
  }

  /** After any non-overflowing trace, a fresh buffer represents exactly the received set. */
  lemma {:induction false} RefinesReceivedSet(maxBytes: nat, trace: seq<Arrival>)
    requires NoWrap(trace)
    requires !PushAll(Fresh(maxBytes), trace).overflowed
    ensures var o := PushAll(Fresh(maxBytes), trace); Represents(o.window, o.delivered, Received(trace))
  {
    if trace != [] {
      var front := trace[..|trace| - 1];
      RefinesReceivedSet(maxBytes, front);
      ReceivedKeys(front);
      var o := PushAll(Fresh(maxBytes), front);
      PushRepresents(o.window, o.delivered, Received(front), trace[|trace| - 1]);
    }
  }

  ghost predicate HasArrived(trace: seq<Arrival>, k: u64) {
    exists p :: Arrival(k, p) in trace
  }

  /** The buffer is complete through s exactly when every number below s has arrived. */
  lemma CompleteIffAllArrived(maxBytes: nat, trace: seq<Arrival>, s: u64)
    requires NoWrap(trace) && !PushAll(Fresh(maxBytes), trace).overflowed
    ensures PushAll(Fresh(maxBytes), trace).window.IsCompleteThrough(s)
       <==> forall k: u64 :: 1 <= k < s ==> HasArrived(trace, k)
  {
    hide PushAll, Received;
    var o, m := PushAll(Fresh(maxBytes), trace), Received(trace);
    RefinesReceivedSet(maxBytes, trace);
    ReceivedFromTrace(trace);
    forall k: u64 | 1 <= k < s
      ensures k in m <==> HasArrived(trace, k)
    {
      if k in m {
        assert Arrival(k, m[k]) in trace;
      }
    }
    var e := o.window.expected;
    if e < s {
      assert e !in m && 1 <= e;
      assert !HasArrived(trace, e);
    } else {
      assert forall k: u64 :: 1 <= k < s ==> k in m;
    }
  }

  lemma {:induction false} ReceivedFromTrace(trace: seq<Arrival>)
    ensures forall k :: k in Received(trace) ==> k != 0 && Arrival(k, Received(trace)[k]) in trace
    ensures forall a :: a in trace && a.s != 0 ==> a.s in Received(trace)
  {
    if trace != [] {
      var front, last := trace[..|trace| - 1], trace[|trace| - 1];
      assert trace == front + [last];
      ReceivedFromTrace(front);
    }
  }

  ghost predicate CopiesAgree(trace: seq<Arrival>) {
    forall a, b :: a in trace && b in trace && a.s == b.s ==> a.payload == b.payload
  }

  /** Neither the order nor the multiplicity of arrivals matters: what is delivered, what is
      still buffered and which number comes next depend only on the set of arrivals. */
  lemma ArrivalOrderIrrelevant(maxBytes1: nat, maxBytes2: nat, trace1: seq<Arrival>, trace2: seq<Arrival>)
    requires NoWrap(trace1) && CopiesAgree(trace1)
    requires forall a :: a in trace1 <==> a in trace2
    requires !PushAll(Fresh(maxBytes1), trace1).overflowed
    requires !PushAll(Fresh(maxBytes2), trace2).overflowed
    ensures var o1, o2 := PushAll(Fresh(maxBytes1), trace1), PushAll(Fresh(maxBytes2), trace2);
            && o1.delivered == o2.delivered
            && o1.window.expected == o2.window.expected
            && o1.window.pending == o2.window.pending
  {
    hide PushAll, Received;
    SameReceived(trace1, trace2);
    RefinesReceivedSet(maxBytes1, trace1);
    RefinesReceivedSet(maxBytes2, trace2);
    RepresentsOne(PushAll(Fresh(maxBytes1), trace1), PushAll(Fresh(maxBytes2), trace2), Received(trace1));
  }

  /** Traces with the same arrivals have received the same map. */
  lemma SameReceived(trace1: seq<Arrival>, trace2: seq<Arrival>)
    requires NoWrap(trace1) && CopiesAgree(trace1)
    requires forall a :: a in trace1 <==> a in trace2
    ensures NoWrap(trace2) && Received(trace1) == Received(trace2)
  {
    hide Received;
    forall i | 0 <= i < |trace2|
      ensures trace2[i].s < U64_MAX
    {
      assert trace2[i] in trace1;
    }
    ReceivedFromTrace(trace1);
    ReceivedFromTrace(trace2);
    var m := Received(trace1);
    forall k | k in m || k in Received(trace2)
      ensures k in m && k in Received(trace2) && m[k] == Received(trace2)[k]
    {
      var a := if k in m then Arrival(k, m[k]) else Arrival(k, Received(trace2)[k]);
      assert a in trace1 && a in trace2;
      assert Arrival(k, m[k]) in trace1 && Arrival(k, Received(trace2)[k]) in trace1;
    }
  }

  /** A received map determines the window and what was delivered. */
  lemma RepresentsOne(o1: Outcome, o2: Outcome, m: map<u64, Bytes>)
    requires Represents(o1.window, o1.delivered, m) && Represents(o2.window, o2.delivered, m)
    ensures o1.window.expected == o2.window.expected && o1.window.pending == o2.window.pending
    ensures o1.delivered == o2.delivered
  {
    assert o1.window.expected == o2.window.expected;
  }

  // ----- when the window is wide enough

  /** Every buffered frame is at most `skew` ahead of `expected` and at most `c` bytes long. */
  ghost predicate Near(w: Window, c: nat, skew: nat) {
    forall k :: k in w.pending ==> w.expected < k <= w.expected + skew && |w.pending[k]| <= c
  }

  lemma {:induction false} IntervalSize(keys: set<u64>, lo: int, width: nat)
    requires forall k :: k in keys ==> lo < k <= lo + width
    ensures |keys| <= width
  {
    if width > 0 {
      var rest := keys - {lo + width};
      IntervalSize(rest, lo, width - 1);
      assert keys <= rest + {lo + width};
    } else {
      assert keys == {};
    }
  }

  lemma OneMoreWithin(n: nat, c: nat, skew: nat)
    requires n + 1 <= skew
    ensures n * c + c <= skew * c
  {
    var extra := skew - n - 1;
    assert skew == n + 1 + extra;
    assert (n + 1 + extra) * c == n * c + c + extra * c;
  }

  lemma NearFits(w: Window, c: nat, skew: nat, s: u64, payload: Bytes)
    requires Near(w, c, skew) && |payload| <= c
    requires skew <= w.maxEntries && skew * c <= w.maxBytes
    requires w.expected < s <= w.expected + skew && s !in w.pending
    ensures w.Fits(payload)
  {
    var n := |w.pending|;
    assert n + 1 <= skew by {
      IntervalSize(w.pending.Keys + {s}, w.expected, skew);
    }
    assert w.Buffered() <= n * c by {
      MapSumAtMost(w.pending, Size, c);
    }
    OneMoreWithin(n, c, skew);
  }

  lemma PushStaysNear(w: Window, c: nat, skew: nat, a: Arrival)
    requires Near(w, c, skew) && |a.payload| <= c && a.s < U64_MAX && U64_MAX !in w.pending
    requires skew <= w.maxEntries && skew * c <= w.maxBytes
    requires a.s <= w.expected + skew
    ensures var (w', r) := Pushed(w, a.s, a.payload);
            && !r.overflow && Near(w', c, skew) && U64_MAX !in w'.pending
            && w'.maxEntries == w.maxEntries && w'.maxBytes == w.maxBytes
  {
    if a.s == w.expected {
      DrainTakesRun(a.s + 1, w.pending, w.pending);
    } else if a.s > w.expected && a.s !in w.pending {
      NearFits(w, c, skew, a.s, a.payload);
    }
  }

  /** Each frame is at most `c` bytes and runs at most `skew` ahead of what was then expected. */
  ghost predicate SkewBounded(w: Window, trace: seq<Arrival>, c: nat, skew: nat) {
    forall i :: 0 <= i < |trace| ==>
      && |trace[i].payload| <= c
      && trace[i].s <= PushAll(w, trace[..i]).window.expected + skew
  }

  /** A skew within both caps never overflows the window, in any run. */
  lemma {:induction false} BoundedSkewNeverOverflows(maxBytes: nat, trace: seq<Arrival>, c: nat, skew: nat)
    requires NoWrap(trace) && SkewBounded(Fresh(maxBytes), trace, c, skew)
    requires skew <= Fresh(maxBytes).maxEntries && skew * c <= maxBytes
    ensures var o := PushAll(Fresh(maxBytes), trace);
            && !o.overflowed && Near(o.window, c, skew) && U64_MAX !in o.window.pending
            && o.window.maxEntries == Fresh(maxBytes).maxEntries && o.window.maxBytes == maxBytes
  {
    if trace != [] {
      var w, front := Fresh(maxBytes), trace[..|trace| - 1];
      forall i | 0 <= i < |front|
        ensures |front[i].payload| <= c && front[i].s <= PushAll(w, front[..i]).window.expected + skew
      {
        assert front[i] == trace[i] && front[..i] == trace[..i];
      }
      BoundedSkewNeverOverflows(maxBytes, front, c, skew);
      PushStaysNear(PushAll(w, front).window, c, skew, trace[|trace| - 1]);
    }
  }

  /** With full-size frames only, the entry cap never rejects what the byte budget accepts. */
  lemma EntryCapNeverBindsFirst(w: Window, payload: Bytes)
    requires w.maxEntries == Fresh(w.maxBytes).maxEntries
    requires |payload| == MAX_PAYLOAD && forall k :: k in w.pending ==> |w.pending[k]| == MAX_PAYLOAD
    ensures w.Fits(payload) <==> w.Buffered() + MAX_PAYLOAD <= w.maxBytes
  {
    MapSumConstant(w.pending, Size, MAX_PAYLOAD);
  }

  /** The hypothesis that numbering stops short of the u64 wrap is needed: pushing the last
      number resets `expected` to 0, and the buffer forgets everything it delivered. */
  lemma WrapForgetsProgress(maxBytes: nat, payload: Bytes)
    ensures var w := Fresh(maxBytes).(expected := U64_MAX);
            && w.IsCompleteThrough(U64_MAX)
            && !Pushed(w, U64_MAX, payload).0.IsCompleteThrough(1)
  {
    assert Drain(0, map[]) == Drained([], 0, map[]);
  }
}
