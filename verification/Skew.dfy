/** How much skew between links a reorder window bears: exactly as many frames as fit both of its
    caps.  And no number of tunnels bounds the skew: one stalled link is enough, however short the
    queues, because the other links keep taking frames. */
module Skew {
  import opened Wire
  import opened Reorder
  import opened Receiver
  import opened Delivery
  import opened MapSums

  function Chunk(c: nat): Bytes {
    seq(c, _ => 0)
  }

  /** Frames 2 to n + 1, each of c bytes, waiting for frame 1. */
  function Waiting(c: nat, n: nat): map<u64, Bytes>
    requires n < U64_MAX
  {
    if n == 0 then map[] else Waiting(c, n - 1)[n + 1 := Chunk(c)]
  }

  function Holding(maxBytes: nat, c: nat, n: nat): Window
    requires n < U64_MAX
  {
    Fresh(maxBytes).(pending := Waiting(c, n))
  }

  /** n frames of c bytes fit both the entry cap and the byte budget. */
  predicate FitBoth(maxBytes: nat, c: nat, n: nat) {
    n <= Fresh(maxBytes).maxEntries && n * c <= maxBytes
  }

  lemma TimesStep(n: nat, c: nat)
    ensures (n + 1) * c == n * c + c
  {
  }

  lemma {:induction false} WaitingKeys(c: nat, n: nat)
    requires n < U64_MAX
    ensures |Waiting(c, n)| == n
    ensures forall k :: k in Waiting(c, n) <==> 2 <= k <= n + 1
  {
    if n > 0 {
      WaitingKeys(c, n - 1);
    }
  }

  function Total(c: nat, n: nat): nat {
    if n == 0 then 0 else Total(c, n - 1) + c
  }

  lemma {:induction false} TotalIs(c: nat, n: nat)
    ensures Total(c, n) == n * c
  {
    if n > 0 {
      TotalIs(c, n - 1);
      TimesStep(n - 1, c);
    }
  }

  lemma {:induction false} WaitingTotal(c: nat, n: nat)
    requires n < U64_MAX
    ensures MapSum(Waiting(c, n), Size) == Total(c, n)
  {
    if n == 0 {
      assert Waiting(c, 0).Keys == {};
    } else {
      WaitingKeys(c, n - 1);
      WaitingTotal(c, n - 1);
      OneMore(Waiting(c, n - 1), n + 1, Chunk(c), Total(c, n - 1));
    }
  }

  lemma WaitingSize(c: nat, n: nat)
    requires n < U64_MAX
    ensures |Waiting(c, n)| == n
    ensures MapSum(Waiting(c, n), Size) == n * c
    ensures forall k :: k in Waiting(c, n) <==> 2 <= k <= n + 1
  {
    WaitingKeys(c, n);
    WaitingTotal(c, n);
    TotalIs(c, n);
  }

  lemma OneMore(m: map<u64, Bytes>, k: u64, chunk: Bytes, total: nat)
    requires k !in m && MapSum(m, Size) == total
    ensures MapSum(m[k := chunk], Size) == total + |chunk|
  {
    hide MapSum;
    MapSumInsert(m, Size, k, chunk);
  }

  /** One more frame is taken in exactly when it fits both caps; otherwise it overflows. */
  lemma PushWaiting(maxBytes: nat, c: nat, n: nat)
    requires n + 2 <= U64_MAX && FitBoth(maxBytes, c, n)
    ensures Pushed(Holding(maxBytes, c, n), n + 2, Chunk(c))
         == if FitBoth(maxBytes, c, n + 1) then (Holding(maxBytes, c, n + 1), PushResult([], true, false))
            else (Holding(maxBytes, c, n), PushResult([], false, true))
  {
    hide MapSum, Drain;
    WaitingSize(c, n);
    TimesStep(n, c);
  }

  // ----- the exact skew

  /** Frames 2 to n + 1 arrive, frame 1 does not. */
  function Ahead(c: nat, n: nat): seq<Arrival>
    requires n < U64_MAX
  {
    seq(n, i requires 0 <= i < n => Arrival(i + 2, Chunk(c)))
  }

  lemma {:induction false} AheadOutcome(maxBytes: nat, c: nat, n: nat)
    requires n < U64_MAX
    ensures var o := PushAll(Fresh(maxBytes), Ahead(c, n));
            && o.window.expected == 1
            && (o.overflowed <==> !FitBoth(maxBytes, c, n))
            && (FitBoth(maxBytes, c, n) ==> o.window == Holding(maxBytes, c, n))
  {
    if n == 0 {
      assert Fresh(maxBytes) == Holding(maxBytes, c, 0);
    } else {
      hide Pushed;
      var trace := Ahead(c, n);
      assert trace[..n - 1] == Ahead(c, n - 1) && trace[n - 1] == Arrival(n + 1, Chunk(c));
      AheadOutcome(maxBytes, c, n - 1);
      TimesStep(n - 1, c);
      if FitBoth(maxBytes, c, n - 1) {
        PushWaiting(maxBytes, c, n - 1);
      }
    }
  }

  lemma AheadIsSkewBounded(maxBytes: nat, c: nat, skew: nat)
    requires skew + 1 < U64_MAX
    ensures NoWrap(Ahead(c, skew)) && SkewBounded(Fresh(maxBytes), Ahead(c, skew), c, skew)
  {
    var trace := Ahead(c, skew);
    forall i | 0 <= i < |trace|
      ensures |trace[i].payload| <= c && trace[i].s <= PushAll(Fresh(maxBytes), trace[..i]).window.expected + skew
    {
      assert trace[i] == Arrival(i + 2, Chunk(c));
      assert trace[..i] == Ahead(c, i);
      AheadOutcome(maxBytes, c, i);
    }
  }

  /** No run overflows a fresh window of this budget with frames of at most c bytes that run at most
      `skew` ahead of what is then expected. */
  ghost predicate SafeSkew(maxBytes: nat, c: nat, skew: nat) {
    forall trace :: NoWrap(trace) && SkewBounded(Fresh(maxBytes), trace, c, skew) ==>
      !PushAll(Fresh(maxBytes), trace).overflowed
  }

  /** The bound is exact: a skew is safe if and only if that many frames fit both caps. */
  lemma SafeSkewIff(maxBytes: nat, c: nat, skew: nat)
    requires skew + 1 < U64_MAX
    ensures SafeSkew(maxBytes, c, skew) <==> skew <= Fresh(maxBytes).maxEntries && skew * c <= maxBytes
  {
    hide PushAll, SkewBounded;
    if FitBoth(maxBytes, c, skew) {
      forall trace | NoWrap(trace) && SkewBounded(Fresh(maxBytes), trace, c, skew)
        ensures !PushAll(Fresh(maxBytes), trace).overflowed
      {
        BoundedSkewNeverOverflows(maxBytes, trace, c, skew);
      }
    } else {
      AheadIsSkewBounded(maxBytes, c, skew);
      AheadOutcome(maxBytes, c, skew);
    }
  }

  // ----- a stalled link

  /** Two links, never more than one frame queued on either, nothing lost. */
  ghost predicate Calm(s: State) {
    |s.links| == 2 && |s.links[0]| <= 1 && |s.links[1]| <= 1 && !s.lost
  }

  ghost predicate CalmRunTo(states: seq<State>, events: seq<Event>, maxBytes: nat, s: State) {
    && IsRun(states, events) && states[0].window == Fresh(maxBytes) && states[|events|] == s
    && forall i :: 0 <= i < |states| ==> Calm(states[i])
  }

  ghost predicate CalmlyReached(maxBytes: nat, s: State) {
    exists states, events :: CalmRunTo(states, events, maxBytes, s)
  }

  lemma CalmStep(maxBytes: nat, s: State, e: Event, s': State)
    requires CalmlyReached(maxBytes, s) && Next(s, e, s') && Calm(s')
    ensures CalmlyReached(maxBytes, s')
  {
    hide Next, Calm;
    var states, events :| CalmRunTo(states, events, maxBytes, s);
    assert CalmRunTo(states + [s'], events + [e], maxBytes, s');
  }

  function Chunks(c: nat, n: nat): seq<Bytes> {
    seq(n, _ => Chunk(c))
  }

  /** Frame 1 is stuck on link 0; link 1 has delivered frames 2 to n + 1. */
  function Stalled(side: Side, maxBytes: nat, c: nat, n: nat): State
    requires n < U64_MAX
  {
    State(side, Chunks(c, n + 1), false, [[Data(1, Chunk(c))], []], false, Holding(maxBytes, c, n), [], [], 0, false)
  }

  function NextInFlight(side: Side, maxBytes: nat, c: nat, n: nat): State
    requires n + 2 <= U64_MAX
  {
    Stalled(side, maxBytes, c, n).(
      sent := Chunks(c, n + 2), links := [[Data(1, Chunk(c))], [Data(n + 2, Chunk(c))]])
  }

  predicate Refuse(i: nat) {
    false
  }

  lemma StallBegins(side: Side, maxBytes: nat, c: nat)
    ensures CalmlyReached(maxBytes, Stalled(side, maxBytes, c, 0))
  {
    var s0 := State(side, [], false, [[], []], false, Fresh(maxBytes), [], [], 0, false);
    var s, first := Stalled(side, maxBytes, c, 0), Data(1, Chunk(c));
    assert CalmRunTo([s0], [], maxBytes, s0);
    assert s.sent == [] + [Chunk(c)];
    assert [] + [first] == [first];
    assert s.links == s0.links[0 := s0.links[0] + [first]];
    CalmStep(maxBytes, s0, SendData(0, Chunk(c)), s);
  }

  lemma SendNext(side: Side, maxBytes: nat, c: nat, n: nat)
    requires n + 3 < U64_MAX && CalmlyReached(maxBytes, Stalled(side, maxBytes, c, n))
    ensures CalmlyReached(maxBytes, NextInFlight(side, maxBytes, c, n))
  {
    hide CalmlyReached, Chunk, Holding;
    var s, s' := Stalled(side, maxBytes, c, n), NextInFlight(side, maxBytes, c, n);
    var m := Data(n + 2, Chunk(c));
    assert s'.sent == s.sent + [Chunk(c)];
    assert [] + [m] == [m];
    assert s'.links == s.links[1 := s.links[1] + [m]];
    CalmStep(maxBytes, s, SendData(1, Chunk(c)), s');
  }

  /** Link 1 delivers: the frame is taken in if it fits, and otherwise resets the connection. */
  lemma DeliverNext(side: Side, maxBytes: nat, c: nat, n: nat, s': State)
    requires n + 3 < U64_MAX && CalmlyReached(maxBytes, NextInFlight(side, maxBytes, c, n))
    requires FitBoth(maxBytes, c, n)
    requires s' == if FitBoth(maxBytes, c, n + 1) then Stalled(side, maxBytes, c, n + 1)
                   else Stalled(side, maxBytes, c, n).(sent := Chunks(c, n + 2), reset := true)
    ensures CalmlyReached(maxBytes, s')
  {
    hide CalmlyReached, Pushed, Holding, Chunk, FitBoth;
    var s := NextInFlight(side, maxBytes, c, n);
    PushWaiting(maxBytes, c, n);
    assert s.links[1][1..] == [];
    assert s.links[1 := s.links[1][1..]] == s'.links;
    assert s.fates + [] == s.fates;
    OfferNothing(side);
    CalmStep(maxBytes, s, Deliver(1, Refuse, false), s');
  }

  lemma OfferNothing(side: Side)
    ensures Offer(side, [], 0, Refuse) == Offered([], false) && Fates(side, 0, 0, Refuse) == []
  {
  }

  lemma {:induction false} StallReached(side: Side, maxBytes: nat, c: nat, n: nat)
    requires n + 3 < U64_MAX && FitBoth(maxBytes, c, n)
    ensures CalmlyReached(maxBytes, Stalled(side, maxBytes, c, n))
  {
    hide CalmlyReached, Stalled;
    if n == 0 {
      StallBegins(side, maxBytes, c);
    } else {
      TimesStep(n - 1, c);
      StallReached(side, maxBytes, c, n - 1);
      SendNext(side, maxBytes, c, n - 1);
      DeliverNext(side, maxBytes, c, n - 1, Stalled(side, maxBytes, c, n));
    }
  }

  /** How many frames of c bytes the window holds: as many as both caps allow. */
  function Capacity(maxBytes: nat, c: nat): nat
    requires c > 0
  {
    var most := maxBytes / c;
    if Fresh(maxBytes).maxEntries < most then Fresh(maxBytes).maxEntries else most
  }

  lemma CapacityFits(maxBytes: nat, c: nat)
    requires c > 0 && maxBytes < U64_MAX
    ensures var n := Capacity(maxBytes, c);
            n + 3 < U64_MAX && FitBoth(maxBytes, c, n) && !FitBoth(maxBytes, c, n + 1)
  {
    var most, n := maxBytes / c, Capacity(maxBytes, c);
    assert most * c <= maxBytes < (most + 1) * c;
    assert n <= most ==> n * c <= most * c by {
      TimesMonotone(n, most, c);
    }
  }

  lemma TimesMonotone(a: nat, b: nat, c: nat)
    ensures a <= b ==> a * c <= b * c
  {
  }

  /** Whatever the window's budget and whatever the chunk size, a run with two links and at most one
      frame queued on each ends in a reset by overflow, once the frames of the other link have
      filled the byte budget or the entry cap, whichever is the tighter: no multiple of links,
      queue capacity and chunk size is a safe budget. */
  lemma StalledLinkOverflowsAnyWindow(side: Side, maxBytes: nat, c: nat) returns (s: State)
    requires c > 0 && maxBytes < U64_MAX
    ensures CalmlyReached(maxBytes, s) && s.reset && s.output == []
    ensures forall i :: 0 <= i < |s.sent| ==> |s.sent[i]| == c
    ensures |s.window.pending| == Capacity(maxBytes, c)
  {
    hide CalmlyReached, FitBoth, Capacity;
    var n := Capacity(maxBytes, c);
    CapacityFits(maxBytes, c);
    StallReached(side, maxBytes, c, n);
    SendNext(side, maxBytes, c, n);
    s := Stalled(side, maxBytes, c, n).(sent := Chunks(c, n + 2), reset := true);
    DeliverNext(side, maxBytes, c, n, s);
    WaitingSize(c, n);
  }
}
