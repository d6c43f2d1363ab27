/** The pool of tunnel links (src/tunnel.rs): cyclic send for control frames, one weighted pass
    of the send for DATA frames. */
module TunnelPool {
  import opened Wire
  import opened WeightedPick
  import opened Division

  const TUNNEL_CHANNEL_CAP := 128

  /** A link: its `alive` flag, whether its channel still has a receiver, the frames queued in
      that channel and its measured drain rate. */
  datatype Link = Link(alive: bool, open: bool, queue: seq<Frame>, rate: real)

  predicate HasRoom(l: Link) {
    l.alive && l.open && |l.queue| < TUNNEL_CHANNEL_CAP
  }

  /** Nothing changed except that closed links may have been found dead. */
  ghost predicate OnlyClosedDied(before: seq<Link>, after: seq<Link>, except: int) {
    && |after| == |before|
    && forall i :: 0 <= i < |before| && i != except ==>
         after[i] == before[i] || (after[i] == before[i].(alive := false) && !before[i].open)
  }

  /** The frame went onto link j once, and nothing else was queued anywhere. */
  ghost predicate EnqueuedOn(before: seq<Link>, after: seq<Link>, f: Frame, j: int) {
    && 0 <= j < |before| && HasRoom(before[j])
    && OnlyClosedDied(before, after, j)
    && after[j] == before[j].(queue := before[j].queue + [f])
  }

  ghost predicate SomeRoom(links: seq<Link>) {
    exists i :: 0 <= i < |links| && HasRoom(links[i])
  }

  /** Live links that have not been found full in this pass. */
  function Eligible(links: seq<Link>, skip: set<nat>, n: nat): seq<nat>
    requires n <= |links|
  {
    if n == 0 then []
    else Eligible(links, skip, n - 1) + if links[n - 1].alive && n - 1 !in skip then [n - 1] else []
  }

  function Rates(links: seq<Link>, idx: seq<nat>): (raw: seq<real>)
    requires forall j :: 0 <= j < |idx| ==> idx[j] < |links|
    ensures |raw| == |idx|
    ensures forall j :: 0 <= j < |idx| ==> raw[j] == Max(links[idx[j]].rate, 0.0)
  {
    seq(|idx|, j requires 0 <= j < |idx| => Max(links[idx[j]].rate, 0.0))
  }

  lemma {:induction false} EligibleIs(links: seq<Link>, skip: set<nat>, n: nat)
    requires n <= |links|
    ensures forall j :: 0 <= j < |Eligible(links, skip, n)| ==> Eligible(links, skip, n)[j] < n
    ensures forall i :: i in Eligible(links, skip, n) <==> 0 <= i < n && links[i].alive && i !in skip
  {
    if n > 0 {
      EligibleIs(links, skip, n - 1);
    }
  }

  /** The link visited at hop d of a cyclic scan. */
  function Slot(start: nat, d: nat, n: nat): (k: nat)
    requires start < n
    ensures k < n
  {
    (start + d) % n
  }

  /** The scan visits every position. */
  lemma ScanCovers(start: nat, n: nat, i: nat) returns (d: nat)
    requires start < n && i < n
    ensures d < n && Slot(start, d, n) == i
  {
    d := if i >= start then i - start else i - start + n;
    Quotient(start + d, n, if i >= start then 0 else 1, i);
  }

  /** None of the first `hops` links visited has room. */
  ghost predicate NoRoomWithin(links: seq<Link>, start: nat, hops: nat)
    requires start < |links|
  {
    forall d :: 0 <= d < hops ==> !HasRoom(links[Slot(start, d, |links|)])
  }

  /** The set of links still to be tried in a pass. */
  ghost function LiveSet(links: seq<Link>, skip: set<nat>): set<nat> {
    set i: nat | i < |links| && links[i].alive && i !in skip
  }

  datatype Outcome = Sent | NoRoom

  class Pool {
    var links: seq<Link>
    var rr: u64

    /** Cyclic send: the frame goes to the first link with room, counting from the cursor. */
    method Send(f: Frame) returns (ok: bool, ghost hops: nat)
      modifies this
      ensures ok <==> SomeRoom(old(links))
      ensures old(links) != [] ==> rr == Succ(old(rr))
      ensures ok ==>
                var start := old(rr) % |old(links)|;
                && EnqueuedOn(old(links), links, f, Slot(start, hops, |old(links)|))
                && NoRoomWithin(old(links), start, hops)
      ensures !ok ==> OnlyClosedDied(old(links), links, -1)
    {
      hops := 0;
      if links == [] {
        return false, 0;
      }
      var n := |links|;
      var start := rr % n;
      rr := Succ(rr);
      var i := 0;
      while i < n
        invariant 0 <= i <= n && |links| == n
        invariant OnlyClosedDied(old(links), links, -1)
        invariant NoRoomWithin(old(links), start, i) && rr == Succ(old(rr))
      {
        hide Slot;
        var k := Slot(start, i, n);
        var l := links[k];
        if l.alive {
          if !l.open {
            links := links[k := l.(alive := false)];
          } else if |l.queue| < TUNNEL_CHANNEL_CAP {
            assert l == old(links)[k] && HasRoom(old(links)[k]);
            links := links[k := l.(queue := l.queue + [f])];
            return true, i;
          }
        }
        i := i + 1;
      }
      forall k | 0 <= k < n
        ensures !HasRoom(old(links)[k])
      {
        var d := ScanCovers(start, n, k);
      }
      return false, 0;
    }

    /** Proportional pick over the live links outside `skip`. */
    method WeightedPick(skip: set<nat>) returns (found: bool, k: nat)
      modifies this`rr
      ensures found <==> LiveSet(links, skip) != {}
      ensures found ==> k in LiveSet(links, skip)
      ensures found ==> rr == Succ(old(rr))
      ensures found ==> IsPick(links, skip, old(rr), k)
    {
      hide Weights, Anchor;
      var idx := Eligible(links, skip, |links|);
      EligibleIs(links, skip, |links|);
      if idx == [] {
        assert forall i :: i in LiveSet(links, skip) ==> i in idx;
        return false, 0;
      }
      var ws := Weights(Rates(links, idx));
      var total := Total(ws);
      var j := FindOver(ws, Anchor(rr, total));
      rr := Succ(rr);
      assert idx[j] in idx;
      assert idx[j] in LiveSet(links, skip);
      return true, idx[j];
    }

    /** One pass of the DATA send: pick, skip what is full, drop what is closed, until the frame
        is queued or no live link is left to try.  The link that takes it is the weighted pick at
        `cursor` among those of `before` that are alive and were not found full. */
    method SendPass(f: Frame)
      returns (outcome: Outcome, ghost picks: nat, ghost tried: set<nat>, ghost before: seq<Link>, ghost cursor: u64)
      modifies this
      ensures outcome.Sent? <==> SomeRoom(old(links))
      ensures outcome.Sent? ==> exists j :: EnqueuedOn(old(links), links, f, j)
      ensures outcome.NoRoom? ==> OnlyClosedDied(old(links), links, -1)
      ensures picks <= |LiveSet(old(links), {})|
      ensures OnlyClosedDied(old(links), before, -1) && AllFull(before, tried)
      ensures outcome.Sent? ==>
                exists k: nat :: IsPick(before, tried, cursor, k) && QueuedOn(before, links, f, k)
    {
      tried, before, cursor := {}, links, rr;
      picks := 0;
      var full: set<nat> := {};
      while true
        invariant OnlyClosedDied(old(links), links, -1)
        invariant forall i :: i in full ==> i < |links| && !HasRoom(old(links)[i])
        invariant AllFull(links, full)
        invariant picks + |LiveSet(links, full)| <= |LiveSet(old(links), {})|
        decreases |LiveSet(links, full)|
      {
        hide IsPick, LiveSet, SomeRoom, AllFull, OnlyClosedDied, HasRoom, EnqueuedOn;
        tried, before, cursor := full, links, rr;
        var found, k := WeightedPick(full);
        if !found {
          NoneLeft(old(links), links, full);
          return NoRoom, picks, tried, before, cursor;
        }
        picks := picks + 1;
        TriedOne(links, full, k);
        PickedIsLive(links, full, k);
        PickEffect(old(links), links, full, k, f);
        var l := links[k];
        if !l.open {
          links := links[k := l.(alive := false)];
        } else if |l.queue| < TUNNEL_CHANNEL_CAP {
          links := links[k := l.(queue := l.queue + [f])];
          return Sent, picks, tried, before, cursor;
        } else {
          full := full + {k};
        }
      }
    }
  }

  /** The frame has joined the queue of link k, and nothing else has changed. */
  ghost predicate QueuedOn(before: seq<Link>, after: seq<Link>, f: Frame, k: nat) {
    k < |before| && after == before[k := before[k].(queue := before[k].queue + [f])]
  }

  /** Links found full: open, with no room left. */
  ghost predicate AllFull(links: seq<Link>, full: set<nat>) {
    forall i :: i in full ==> i < |links| && links[i].open && |links[i].queue| >= TUNNEL_CHANNEL_CAP
  }

  /** Link k is the proportional pick at `cursor` among the live links outside `skip`. */
  ghost predicate IsPick(links: seq<Link>, skip: set<nat>, cursor: u64, k: nat) {
    var idx := Eligible(links, skip, |links|);
    && idx != [] && (forall j :: 0 <= j < |idx| ==> idx[j] < |links|)
    && Pick(Weights(Rates(links, idx)), cursor) < |idx|
    && k == idx[Pick(Weights(Rates(links, idx)), cursor)]
  }

  lemma PickedIsLive(links: seq<Link>, full: set<nat>, k: nat)
    requires k in LiveSet(links, full)
    ensures k < |links| && links[k].alive
  {
  }

  /** What each outcome of trying link k means for the pass. */
  lemma PickEffect(first: seq<Link>, links: seq<Link>, full: set<nat>, k: nat, f: Frame)
    requires OnlyClosedDied(first, links, -1) && AllFull(links, full) && k < |links| && links[k].alive
    requires forall i :: i in full ==> i < |links| && !HasRoom(first[i])
    ensures !links[k].open ==>
              var after := links[k := links[k].(alive := false)];
              OnlyClosedDied(first, after, -1) && AllFull(after, full)
    ensures links[k].open && |links[k].queue| < TUNNEL_CHANNEL_CAP ==>
              var after := links[k := links[k].(queue := links[k].queue + [f])];
              EnqueuedOn(first, after, f, k) && QueuedOn(links, after, f, k) && SomeRoom(first)
    ensures links[k].open && |links[k].queue| >= TUNNEL_CHANNEL_CAP ==>
              AllFull(links, full + {k}) && !HasRoom(first[k])
  {
  }

  /** A pick that does not take the frame leaves one link fewer to try. */
  lemma TriedOne(links: seq<Link>, full: set<nat>, k: nat)
    requires k in LiveSet(links, full)
    ensures |LiveSet(links[k := links[k].(alive := false)], full)| == |LiveSet(links, full)| - 1
    ensures |LiveSet(links, full + {k})| == |LiveSet(links, full)| - 1
  {
    var live := LiveSet(links, full);
    assert LiveSet(links[k := links[k].(alive := false)], full) == live - {k};
    assert LiveSet(links, full + {k}) == live - {k};
  }

  lemma NoneLeft(before: seq<Link>, links: seq<Link>, full: set<nat>)
    requires OnlyClosedDied(before, links, -1) && LiveSet(links, full) == {}
    requires forall i :: i in full ==> i < |links| && !HasRoom(before[i])
    ensures !SomeRoom(before)
  {
    forall i | 0 <= i < |before|
      ensures !HasRoom(before[i])
    {
      assert i !in LiveSet(links, full);
    }
  }

  method Total(ws: seq<real>) returns (total: real)
    ensures total == Sum(ws)
  {
    total := 0.0;
    var j := 0;
    while j < |ws|
      invariant 0 <= j <= |ws| && total == Sum(ws[..j])
    {
      assert ws[..j + 1][..j] == ws[..j];
      total := total + ws[j];
      j := j + 1;
    }
    assert ws[..|ws|] == ws;
  }

  /** Accumulate weights until they pass the anchor; the last link is the fallback. */
  method FindOver(ws: seq<real>, anchor: real) returns (j: nat)
    requires ws != []
    ensures j < |ws| && j == FirstOver(ws, anchor, 0)
  {
    j := 0;
    var acc := 0.0;
    while j < |ws|
      invariant 0 <= j <= |ws| && acc == Sum(ws[..j])
      invariant FirstOver(ws, anchor, 0) == if j < |ws| then FirstOver(ws, anchor, j) else |ws| - 1
    {
      assert ws[..j + 1][..j] == ws[..j];
      acc := acc + ws[j];
      if anchor < acc {
        return;
      }
      j := j + 1;
    }
    j := |ws| - 1;
  }
}
