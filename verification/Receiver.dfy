/** Handing in-order chunks to a bounded channel: `VirtConn::on_frame` of the splitter and the
    DATA branch of the reassembler's `handle_frame`. */
module Receiver {
  import opened Wire
  import opened Reorder

  datatype Side = Splitter | Reassembler
  datatype Offered = Offered(accepted: seq<Bytes>, failed: bool)

  /** Offer `ready[i..]` to the channel, where `accepts(j)` says whether the channel takes the
      j-th chunk at that moment (it is bounded, and its consumer runs concurrently).  After a
      refusal the splitter keeps offering the rest; the reassembler stops. */
  ghost function Offer(side: Side, ready: seq<Bytes>, i: nat, accepts: nat -> bool): Offered
    requires i <= |ready|
    decreases |ready| - i
  {
    if i == |ready| then Offered([], false)
    else if accepts(i) then
      var o := Offer(side, ready, i + 1, accepts);
      Offered([ready[i]] + o.accepted, o.failed)
    else if side.Reassembler? then Offered([], true)
    else Offered(Offer(side, ready, i + 1, accepts).accepted, true)
  }

  datatype Reception = Reception(window: Window, output: seq<Bytes>, reset: bool)

  ghost function OnData(side: Side, w: Window, output: seq<Bytes>, s: u64, payload: Bytes,
                        accepts: nat -> bool): Reception
  {
    var (w', r) := Pushed(w, s, payload);
    if !r.accepted then Reception(w, output, r.overflow)
    else
      var o := Offer(side, r.ready, 0, accepts);
      Reception(w', output + o.accepted, o.failed)
  }

  class Conn {
    const side: Side
    const reorder: ReorderBuf
    var output: seq<Bytes>

    ghost predicate Valid()
      reads this, reorder
    {
      reorder.Valid()
    }

    constructor (side: Side, maxBytes: nat)
      ensures Valid() && fresh(reorder) && this.side == side
      ensures reorder.Model() == Fresh(maxBytes) && output == []
    {
      this.side := side;
      this.reorder := new ReorderBuf.WithLimit(maxBytes);
      this.output := [];
    }

    method OnFrame(s: u64, payload: Bytes, accepts: nat -> bool) returns (reset: bool, taken: bool)
      requires Valid()
      modifies this, reorder
      ensures Valid()
      ensures Reception(reorder.Model(), output, reset)
           == OnData(side, old(reorder.Model()), old(output), s, payload, accepts)
      ensures taken == Pushed(old(reorder.Model()), s, payload).1.accepted
    {
      hide Pushed, Offer, Resume;
      RefusedUnchanged(reorder.Model(), s, payload);
      var r := reorder.Push(s, payload);
      if !r.accepted {
        return r.overflow, false;
      }
      reset, taken := false, true;
      ResumeStart(output, Offer(side, r.ready, 0, accepts));
      var i := 0;
      while i < |r.ready| && !(reset && side.Reassembler?)
        invariant 0 <= i <= |r.ready|
        invariant reorder.Valid() && reorder.Model() == Pushed(old(reorder.Model()), s, payload).0
        invariant old(output) <= output
        invariant Offer(side, r.ready, 0, accepts)
               == Resume(side, old(output), output, reset, Offer(side, r.ready, i, accepts))
      {
        ResumeStep(side, old(output), output, reset, r.ready, i, accepts);
        if accepts(i) {
          output := output + [r.ready[i]];
        } else {
          reset := true;
        }
        i := i + 1;
      }
      ResumeEnd(side, old(output), output, reset, r.ready, i, accepts);
    }
  }

  /** What the whole offer comes to, given what it has done so far and what the rest would do. */
  ghost function Resume(side: Side, before: seq<Bytes>, now: seq<Bytes>, refused: bool, rest: Offered): Offered
    requires before <= now
  {
    var done := now[|before|..];
    if refused && side.Reassembler? then Offered(done, true) else Offered(done + rest.accepted, refused || rest.failed)
  }

  lemma RefusedUnchanged(w: Window, s: u64, payload: Bytes)
    ensures var (w', r) := Pushed(w, s, payload); !r.accepted ==> w' == w
  {
  }

  lemma ResumeStart(now: seq<Bytes>, rest: Offered)
    ensures forall side :: Resume(side, now, now, false, rest) == rest
  {
    assert now[|now|..] + rest.accepted == rest.accepted;
  }

  lemma ResumeStep(side: Side, before: seq<Bytes>, now: seq<Bytes>, refused: bool,
                   ready: seq<Bytes>, i: nat, accepts: nat -> bool)
    requires i < |ready| && before <= now && !(refused && side.Reassembler?)
    ensures Resume(side, before, now, refused, Offer(side, ready, i, accepts))
         == if accepts(i) then Resume(side, before, now + [ready[i]], refused, Offer(side, ready, i + 1, accepts))
            else Resume(side, before, now, true, Offer(side, ready, i + 1, accepts))
  {
    var rest := Offer(side, ready, i + 1, accepts).accepted;
    assert now[|before|..] + ([ready[i]] + rest) == (now + [ready[i]])[|before|..] + rest;
    assert now[|before|..] + [] == now[|before|..];
  }

  lemma ResumeEnd(side: Side, before: seq<Bytes>, now: seq<Bytes>, refused: bool,
                  ready: seq<Bytes>, i: nat, accepts: nat -> bool)
    requires i <= |ready| && before <= now && (i == |ready| || (refused && side.Reassembler?))
    ensures var o := Resume(side, before, now, refused, Offer(side, ready, i, accepts));
            o.failed == refused && before + o.accepted == now
  {
    assert now[|before|..] + [] == now[|before|..];
  }

  lemma {:induction false} OfferIsPrefix(side: Side, ready: seq<Bytes>, i: nat, accepts: nat -> bool)
    requires i <= |ready|
    ensures var o := Offer(side, ready, i, accepts);
            && (!o.failed ==> o.accepted == ready[i..])
            && (side.Reassembler? ==> o.accepted <= ready[i..])
    decreases |ready| - i
  {
    if i < |ready| {
      OfferIsPrefix(side, ready, i + 1, accepts);
      assert ready[i..] == [ready[i]] + ready[i + 1..];
    }
  }

  /** An offer fails exactly when the channel refuses one of the chunks; without a failure all of
      them are handed over. */
  lemma {:induction false} OfferFailsIff(side: Side, ready: seq<Bytes>, i: nat, accepts: nat -> bool)
    requires i <= |ready|
    ensures Offer(side, ready, i, accepts).failed <==> exists j :: i <= j < |ready| && !accepts(j)
    ensures !Offer(side, ready, i, accepts).failed ==> Offer(side, ready, i, accepts).accepted == ready[i..]
    decreases |ready| - i
  {
    OfferIsPrefix(side, ready, i, accepts);
    if i < |ready| && (accepts(i) || side.Splitter?) {
      OfferFailsIff(side, ready, i + 1, accepts);
    }
  }

  // ----- which chunks get through

  /** For each of the chunks i..n-1 offered, whether the channel got it. */
  ghost function Fates(side: Side, n: nat, i: nat, accepts: nat -> bool): (fates: seq<bool>)
    requires i <= n
    ensures |fates| == n - i
    decreases n - i
  {
    if i == n then []
    else if accepts(i) then [true] + Fates(side, n, i + 1, accepts)
    else if side.Reassembler? then seq(n - i, _ => false)
    else [false] + Fates(side, n, i + 1, accepts)
  }

  ghost function Kept(chunks: seq<Bytes>, fates: seq<bool>): seq<Bytes>
    requires |fates| == |chunks|
  {
    if chunks == [] then []
    else
      var n := |chunks| - 1;
      Kept(chunks[..n], fates[..n]) + if fates[n] then [chunks[n]] else []
  }

  /** The places of the chunks that got through. */
  ghost function Positions(fates: seq<bool>): seq<nat> {
    if fates == [] then []
    else
      var n := |fates| - 1;
      Positions(fates[..n]) + if fates[n] then [n] else []
  }

  ghost predicate AllKept(fates: seq<bool>) {
    forall j :: 0 <= j < |fates| ==> fates[j]
  }

  /** What got through is the first few chunks, by position. */
  ghost predicate InitialSegment(fates: seq<bool>) {
    forall j :: 0 <= j < |Positions(fates)| ==> Positions(fates)[j] == j
  }

  ghost predicate NoneAfterRefusal(fates: seq<bool>) {
    forall j, k :: 0 <= j < k < |fates| && !fates[j] ==> !fates[k]
  }

  lemma {:induction false} KeptConcat(a: seq<Bytes>, f: seq<bool>, b: seq<Bytes>, g: seq<bool>)
    requires |f| == |a| && |g| == |b|
    ensures Kept(a + b, f + g) == Kept(a, f) + Kept(b, g)
  {
    if b == [] {
      assert a + b == a && f + g == f;
    } else {
      var n := |b| - 1;
      KeptConcat(a, f, b[..n], g[..n]);
      assert (a + b)[..|a| + n] == a + b[..n] && (f + g)[..|a| + n] == f + g[..n];
    }
  }

  lemma {:induction false} NoneKept(chunks: seq<Bytes>, fates: seq<bool>)
    requires |fates| == |chunks| && forall j :: 0 <= j < |fates| ==> !fates[j]
    ensures Kept(chunks, fates) == []
  {
    if chunks != [] {
      NoneKept(chunks[..|chunks| - 1], fates[..|chunks| - 1]);
    }
  }

  lemma {:induction false} AllAreKept(chunks: seq<Bytes>, fates: seq<bool>)
    requires |fates| == |chunks| && AllKept(fates)
    ensures Kept(chunks, fates) == chunks
  {
    if chunks != [] {
      var n := |chunks| - 1;
      AllAreKept(chunks[..n], fates[..n]);
      assert chunks == chunks[..n] + [chunks[n]];
    }
  }

  /** The offer hands over exactly the chunks whose fate is to be kept, and reports a failure
      exactly when one is not. */
  lemma {:induction false} OfferFates(side: Side, ready: seq<Bytes>, i: nat, accepts: nat -> bool)
    requires i <= |ready|
    ensures var o, fates := Offer(side, ready, i, accepts), Fates(side, |ready|, i, accepts);
            o.accepted == Kept(ready[i..], fates) && (o.failed <==> !AllKept(fates))
    decreases |ready| - i
  {
    if i < |ready| {
      hide Kept;
      var rest := Fates(side, |ready|, i + 1, accepts);
      if accepts(i) || side.Splitter? {
        OfferFates(side, ready, i + 1, accepts);
        KeptCons(ready[i], accepts(i), ready[i + 1..], rest);
        assert ready[i..] == [ready[i]] + ready[i + 1..];
      } else {
        NoneKept(ready[i..], Fates(side, |ready|, i, accepts));
        assert !Fates(side, |ready|, i, accepts)[0];
      }
    }
  }

  lemma KeptCons(chunk: Bytes, kept: bool, rest: seq<Bytes>, fates: seq<bool>)
    requires |fates| == |rest|
    ensures Kept([chunk] + rest, [kept] + fates) == (if kept then [chunk] else []) + Kept(rest, fates)
    ensures AllKept([kept] + fates) <==> kept && AllKept(fates)
  {
    KeptConcat([chunk], [kept], rest, fates);
    KeptOne(chunk, kept);
    AllKeptCons(kept, fates);
  }

  lemma KeptOne(chunk: Bytes, kept: bool)
    ensures Kept([chunk], [kept]) == if kept then [chunk] else []
  {
    assert Kept([chunk][..0], [kept][..0]) == [];
  }

  lemma AllKeptCons(kept: bool, fates: seq<bool>)
    ensures AllKept([kept] + fates) <==> kept && AllKept(fates)
  {
    var all := [kept] + fates;
    if AllKept(all) {
      assert all[0];
      forall j | 0 <= j < |fates|
        ensures fates[j]
      {
        assert all[j + 1];
      }
    }
  }

  /** The j-th chunk that got through is the one at the j-th position. */
  lemma {:induction false} KeptAt(chunks: seq<Bytes>, fates: seq<bool>)
    requires |fates| == |chunks|
    ensures |Positions(fates)| == |Kept(chunks, fates)| <= |chunks|
    ensures forall j :: 0 <= j < |Positions(fates)| ==>
              Positions(fates)[j] < |chunks| && Kept(chunks, fates)[j] == chunks[Positions(fates)[j]]
  {
    if chunks != [] {
      KeptAt(chunks[..|chunks| - 1], fates[..|chunks| - 1]);
    }
  }

  lemma {:induction false} CountKept(fates: seq<bool>)
    ensures |Positions(fates)| <= |fates| && (|Positions(fates)| == |fates| <==> AllKept(fates))
  {
    if fates != [] {
      var n := |fates| - 1;
      CountKept(fates[..n]);
      assert fates == fates[..n] + [fates[n]];
    }
  }

  /** What got through is an initial segment exactly when nothing got through after a refusal. */
  lemma {:induction false} InitialIff(fates: seq<bool>)
    ensures InitialSegment(fates) <==> NoneAfterRefusal(fates)
  {
    if fates != [] {
      var n := |fates| - 1;
      var front := fates[..n];
      InitialIff(front);
      CountKept(front);
      assert fates == front + [fates[n]];
      if fates[n] {
        assert Positions(fates)[|Positions(front)|] == n;
        assert forall j :: 0 <= j < |Positions(front)| ==> Positions(fates)[j] == Positions(front)[j];
        assert InitialSegment(fates) <==> AllKept(front);
        assert NoneAfterRefusal(fates) <==> AllKept(front);
      } else {
        assert Positions(fates) == Positions(front);
        assert NoneAfterRefusal(fates) <==> NoneAfterRefusal(front);
      }
    }
  }

  lemma InitialIsPrefix(chunks: seq<Bytes>, fates: seq<bool>)
    requires |fates| == |chunks| && NoneAfterRefusal(fates)
    ensures Kept(chunks, fates) <= chunks
  {
    InitialIff(fates);
    KeptAt(chunks, fates);
  }

  /** Within one offer the reassembler takes nothing after a refusal. */
  lemma {:induction false} ReassemblerFates(n: nat, i: nat, accepts: nat -> bool)
    requires i <= n
    ensures NoneAfterRefusal(Fates(Reassembler, n, i, accepts))
    decreases n - i
  {
    if i < n && accepts(i) {
      ReassemblerFates(n, i + 1, accepts);
      var rest := Fates(Reassembler, n, i + 1, accepts);
      assert forall j :: 1 <= j <= |rest| ==> ([true] + rest)[j] == rest[j - 1];
    }
  }

  /** From the i-th chunk on, once the channel refuses it keeps refusing. */
  ghost predicate RefusesForGood(accepts: nat -> bool, i: nat, n: nat) {
    forall j, k :: i <= j < k < n && !accepts(j) ==> !accepts(k)
  }

  lemma {:induction false} SplitterFates(n: nat, i: nat, accepts: nat -> bool)
    requires i <= n
    ensures forall j :: i <= j < n ==> Fates(Splitter, n, i, accepts)[j - i] == accepts(j)
    decreases n - i
  {
    if i < n {
      SplitterFates(n, i + 1, accepts);
    }
  }

  /** The reassembler hands over a chunk exactly when it and all chunks before it are accepted. */
  lemma {:induction false} ReassemblerTakes(n: nat, i: nat, accepts: nat -> bool, j: nat)
    requires i <= j < n
    ensures Fates(Reassembler, n, i, accepts)[j - i] <==> forall t :: i <= t <= j ==> accepts(t)
    decreases n - i
  {
    if i < j {
      ReassemblerTakes(n, i + 1, accepts, j);
    }
  }

  /** For all chunks, equal ones included: the chunks the splitter hands over are, by position, the
      first few of those that were ready exactly when the channel accepts nothing after a refusal;
      otherwise the reset it reports comes with a gap. */
  lemma SplitterKeepsPrefixIff(ready: seq<Bytes>, i: nat, accepts: nat -> bool)
    requires i <= |ready|
    ensures var fates := Fates(Splitter, |ready|, i, accepts);
            var accepted := Offer(Splitter, ready, i, accepts).accepted;
            && accepted == Kept(ready[i..], fates)
            && (InitialSegment(fates) <==> RefusesForGood(accepts, i, |ready|))
            && (RefusesForGood(accepts, i, |ready|) ==> accepted <= ready[i..])
  {
    var n, fates := |ready|, Fates(Splitter, |ready|, i, accepts);
    OfferFates(Splitter, ready, i, accepts);
    SplitterFates(n, i, accepts);
    InitialIff(fates);
    ForGoodIff(fates, n, i, accepts);
    if RefusesForGood(accepts, i, n) {
      InitialIsPrefix(ready[i..], fates);
    }
  }

  lemma ForGoodIff(fates: seq<bool>, n: nat, i: nat, accepts: nat -> bool)
    requires i <= n && |fates| == n - i && forall j :: i <= j < n ==> fates[j - i] == accepts(j)
    ensures RefusesForGood(accepts, i, n) <==> NoneAfterRefusal(fates)
  {
    forall j | 0 <= j < |fates|
      ensures fates[j] == accepts(i + j)
    {
      assert fates[(i + j) - i] == accepts(i + j);
    }
    if NoneAfterRefusal(fates) {
      forall j, k | i <= j < k < n && !accepts(j)
        ensures !accepts(k)
      {
        assert !fates[j - i];
      }
    }
  }

  predicate AllButFirst(j: nat) {
    j > 0
  }

  /** A concrete gap: chunks 1 and 2 become ready together, the channel refuses the first and
      accepts the second. */
  lemma SplitterGapExample(maxBytes: nat)
    requires maxBytes >= 1
    ensures var w := Fresh(maxBytes).(pending := map[2 := [20]]);
            var r := OnData(Splitter, w, [], 1, [10], AllButFirst);
            r.reset && r.output == [[20]] && r.window.expected == 3
  {
    var p: map<u64, Bytes> := map[2 := [20]];
    assert p - {2} == map[];
    assert Drain(3, p - {2}) == Drained([], 3, map[]);
    assert Drain(2, p) == Drained([[20]], 3, map[]);
    var ready: seq<Bytes> := [[10], [20]];
    var w := Fresh(maxBytes).(pending := p);
    assert Pushed(w, 1, [10]).1 == PushResult([[10]] + [[20]], true, false);
    assert [[10]] + [[20]] == ready;
    assert Offer(Splitter, ready, 2, AllButFirst) == Offered([], false);
    assert Offer(Splitter, ready, 1, AllButFirst) == Offered([[20]], false);
    assert Offer(Splitter, ready, 0, AllButFirst) == Offered([[20]], true);
  }
}
