/** Weighted round-robin over live links (src/tunnel.rs, `weighted_pick`), in exact arithmetic. */
module WeightedPick {
  const FLOOR_SHARE := 0.05
  const WEIGHT_GRID := 1024

  function Max(a: real, b: real): real {
    if a >= b then a else b
  }

  function Sum(xs: seq<real>): real {
    if xs == [] then 0.0 else Sum(xs[..|xs| - 1]) + xs[|xs| - 1]
  }

  function Weight(r: real, mean: real, floor: real): real {
    Max(if r > 0.0 then r else mean, floor)
  }

  /** Measured rates, an unmeasured link at the mean, nobody below the floor share; uniform when
      nothing has been measured. */
  function Weights(raw: seq<real>): (ws: seq<real>)
    ensures |ws| == |raw|
  {
    var total := Sum(raw);
    if total > 0.0 && |raw| > 0 then
      seq(|raw|, i requires 0 <= i < |raw| => Weight(raw[i], total / (|raw| as real), FLOOR_SHARE * total))
    else seq(|raw|, _ => 1.0)
  }

  function Anchor(cursor: nat, total: real): real {
    (cursor % WEIGHT_GRID) as real / WEIGHT_GRID as real * total
  }

  /** The first link whose cumulative weight exceeds the anchor. */
  function FirstOver(ws: seq<real>, anchor: real, i: nat): nat
    requires i < |ws|
    decreases |ws| - i
  {
    if i == |ws| - 1 || anchor < Sum(ws[..i + 1]) then i else FirstOver(ws, anchor, i + 1)
  }

  function Pick(ws: seq<real>, cursor: nat): nat
    requires ws != []
  {
    FirstOver(ws, Anchor(cursor, Sum(ws)), 0)
  }

  ghost predicate Positive(ws: seq<real>) {
    forall i :: 0 <= i < |ws| ==> ws[i] > 0.0
  }

  // ----- which link a cursor picks

  lemma {:induction false} SumMonotone(ws: seq<real>, i: nat, j: nat)
    requires Positive(ws) && i <= j <= |ws|
    ensures Sum(ws[..i]) <= Sum(ws[..j]) && (i < j ==> Sum(ws[..i]) < Sum(ws[..j]))
    decreases j
  {
    if i < j {
      assert ws[..j][..j - 1] == ws[..j - 1];
      SumMonotone(ws, i, j - 1);
    }
  }

  lemma {:induction false} FirstOverFinds(ws: seq<real>, anchor: real, i: nat)
    requires i < |ws| && anchor < Sum(ws) && Sum(ws[..i]) <= anchor
    ensures var k := FirstOver(ws, anchor, i); i <= k < |ws| && Sum(ws[..k]) <= anchor < Sum(ws[..k + 1])
    decreases |ws| - i
  {
    assert ws[..|ws|] == ws;
    if !(i == |ws| - 1 || anchor < Sum(ws[..i + 1])) {
      FirstOverFinds(ws, anchor, i + 1);
    }
  }

  lemma AnchorInRange(cursor: nat, total: real)
    requires total > 0.0
    ensures 0.0 <= Anchor(cursor, total) < total
  {
    var g := (cursor % WEIGHT_GRID) as real / WEIGHT_GRID as real;
    assert 0.0 <= g < 1.0;
    assert g * total < 1.0 * total;
    assert 0.0 <= g * total;
  }

  /** The anchor always falls into the picked link's own stretch of the cumulative weights, so
      the rounding fallback is never reached. */
  lemma PickSpans(ws: seq<real>, cursor: nat)
    requires ws != [] && Positive(ws)
    ensures var k := Pick(ws, cursor);
            k < |ws| && Sum(ws[..k]) <= Anchor(cursor, Sum(ws)) < Sum(ws[..k + 1])
  {
    assert ws[..|ws|] == ws && ws[..0] == [];
    SumMonotone(ws, 0, |ws|);
    AnchorInRange(cursor, Sum(ws));
    FirstOverFinds(ws, Anchor(cursor, Sum(ws)), 0);
  }

  lemma PickIff(ws: seq<real>, cursor: nat, i: nat)
    requires ws != [] && Positive(ws) && i < |ws|
    ensures Pick(ws, cursor) == i <==> Sum(ws[..i]) <= Anchor(cursor, Sum(ws)) < Sum(ws[..i + 1])
  {
    PickSpans(ws, cursor);
    var k := Pick(ws, cursor);
    if k < i {
      SumMonotone(ws, k + 1, i);
    } else if i < k {
      SumMonotone(ws, i + 1, k);
    }
  }

  // ----- counting picks

  function One(b: bool): nat {
    if b then 1 else 0
  }

  /** How often cursors lo..hi-1 pick link i. */
  function Picks(ws: seq<real>, lo: nat, hi: nat, i: nat): nat
    requires ws != [] && lo <= hi
    decreases hi
  {
    if lo == hi then 0 else Picks(ws, lo, hi - 1, i) + One(Pick(ws, hi - 1) == i)
  }

  function Ceil(x: real): int {
    -((-x).Floor)
  }

  /** How many of the grid points 0..n-1 lie below x. */
  function Below(n: nat, x: real): nat {
    if n == 0 then 0 else Below(n - 1, x) + One((n - 1) as real < x)
  }

  lemma {:induction false} BelowIsCeil(n: nat, x: real)
    requires 0.0 <= x
    ensures Below(n, x) == if x <= n as real then Ceil(x) else n
  {
    if n > 0 {
      BelowIsCeil(n - 1, x);
    }
  }

  /** A link's stretch of the cumulative weights, in grid units. */
  function GridPos(ws: seq<real>, i: nat): real
    requires Sum(ws) != 0.0 && i <= |ws|
  {
    WEIGHT_GRID as real * Sum(ws[..i]) / Sum(ws)
  }

  lemma ScaleCompare(k: real, p: real, w: real)
    requires w > 0.0
    ensures p <= k / 1024.0 * w <==> 1024.0 * p / w <= k
  {
    assert k / 1024.0 * w == k * w / 1024.0;
    assert 1024.0 * p / w <= k <==> 1024.0 * p <= k * w by {
      DivLe(1024.0 * p, w, k);
    }
  }

  lemma DivLe(a: real, w: real, k: real)
    requires w > 0.0
    ensures a / w <= k <==> a <= k * w
  {
    var q := a / w;
    assert q * w == a;
    if q <= k {
      assert q * w <= k * w;
    } else {
      assert q * w > k * w;
    }
  }

  lemma PickInGrid(ws: seq<real>, k: nat, i: nat)
    requires ws != [] && Positive(ws) && i < |ws| && k < WEIGHT_GRID && Sum(ws) > 0.0
    ensures Pick(ws, k) == i <==> GridPos(ws, i) <= k as real < GridPos(ws, i + 1)
  {
    hide Sum, Pick;
    PickIff(ws, k, i);
    assert k % WEIGHT_GRID == k;
    var t, a, b := Sum(ws), Sum(ws[..i]), Sum(ws[..i + 1]);
    ScaleCompare(k as real, a, t);
    ScaleCompare(k as real, b, t);
  }

  lemma {:induction false} PicksAreBelow(ws: seq<real>, n: nat, i: nat)
    requires ws != [] && Positive(ws) && i < |ws| && n <= WEIGHT_GRID && Sum(ws) > 0.0
    requires GridPos(ws, i) <= GridPos(ws, i + 1)
    ensures Picks(ws, 0, n, i) == Below(n, GridPos(ws, i + 1)) - Below(n, GridPos(ws, i))
  {
    if n > 0 {
      PicksAreBelow(ws, n - 1, i);
      PickInGrid(ws, n - 1, i);
    }
  }

  lemma GridPosBounds(ws: seq<real>, i: nat)
    requires ws != [] && Positive(ws) && i < |ws|
    ensures Sum(ws) > 0.0
    ensures 0.0 <= GridPos(ws, i) <= GridPos(ws, i + 1) <= WEIGHT_GRID as real
    ensures GridPos(ws, i + 1) - GridPos(ws, i) == WEIGHT_GRID as real * ws[i] / Sum(ws)
  {
    hide Sum;
    SumSpan(ws, i);
    var a, w, t := Sum(ws[..i]), ws[i], Sum(ws);
    ScaledSpan(a, w, t);
  }

  lemma SumSpan(ws: seq<real>, i: nat)
    requires Positive(ws) && i < |ws|
    ensures 0.0 <= Sum(ws[..i]) && Sum(ws[..i + 1]) == Sum(ws[..i]) + ws[i] <= Sum(ws) && Sum(ws) > 0.0
  {
    assert ws[..|ws|] == ws && ws[..0] == [] && ws[..i + 1][..i] == ws[..i];
    SumMonotone(ws, 0, i);
    SumMonotone(ws, i + 1, |ws|);
    SumMonotone(ws, 0, |ws|);
  }

  lemma ScaledSpan(a: real, w: real, t: real)
    requires t > 0.0 && 0.0 <= a && 0.0 <= w && a + w <= t
    ensures 0.0 <= 1024.0 * a / t <= 1024.0 * (a + w) / t <= 1024.0
    ensures 1024.0 * (a + w) / t - 1024.0 * a / t == 1024.0 * w / t
  {
    var p, q := 1024.0 * a / t, 1024.0 * w / t;
    DivNonNeg(1024.0 * a, t);
    DivNonNeg(1024.0 * w, t);
    assert 1024.0 * (a + w) == 1024.0 * a + 1024.0 * w;
    DivPlus(1024.0 * a, 1024.0 * w, t);
    DivLe(1024.0 * (a + w), t, 1024.0);
  }

  lemma DivNonNeg(a: real, w: real)
    requires w > 0.0 && a >= 0.0
    ensures a / w >= 0.0
  {
  }

  lemma DivPlus(a: real, b: real, w: real)
    requires w > 0.0
    ensures (a + b) / w == a / w + b / w
  {
  }

  ghost predicate Repeats(ws: seq<real>, c: nat, period: nat)
    requires ws != []
  {
    Pick(ws, c + period) == Pick(ws, c)
  }

  /** The pick is periodic in the cursor, so every window of one period counts alike. */
  lemma {:induction false} WindowShift(ws: seq<real>, lo: nat, period: nat, i: nat)
    requires ws != [] && forall c :: Repeats(ws, c, period)
    ensures Picks(ws, lo, lo + period, i) == Picks(ws, 0, period, i)
    decreases lo
  {
    if lo > 0 {
      WindowShift(ws, lo - 1, period, i);
      SlideWindow(ws, lo - 1, lo - 1 + period, i);
    }
  }

  lemma SlideWindow(ws: seq<real>, lo: nat, hi: nat, i: nat)
    requires ws != [] && lo <= hi && Repeats(ws, lo, hi - lo)
    ensures Picks(ws, lo + 1, hi + 1, i) == Picks(ws, lo, hi, i)
  {
    hide Pick;
    if lo < hi {
      PicksFront(ws, lo, hi, i);
      var n := Picks(ws, lo + 1, hi, i);
      assert Picks(ws, lo + 1, hi + 1, i) == n + One(Pick(ws, hi) == i);
    }
  }

  lemma PickRepeats(ws: seq<real>, c: nat)
    requires ws != []
    ensures Repeats(ws, c, WEIGHT_GRID)
  {
    hide Sum, FirstOver;
    AnchorRepeats(c, Sum(ws));
  }

  lemma AnchorRepeats(c: nat, total: real)
    ensures Anchor(c + WEIGHT_GRID, total) == Anchor(c, total)
  {
    GridRepeats(c);
  }

  lemma GridRepeats(c: nat)
    ensures (c + WEIGHT_GRID) % WEIGHT_GRID == c % WEIGHT_GRID
  {
  }

  lemma {:induction false} PicksFront(ws: seq<real>, lo: nat, hi: nat, i: nat)
    requires ws != [] && lo < hi
    ensures Picks(ws, lo, hi, i) == One(Pick(ws, lo) == i) + Picks(ws, lo + 1, hi, i)
    decreases hi
  {
    if lo + 1 < hi {
      PicksFront(ws, lo, hi - 1, i);
    }
  }

  /** Proportional service: any 1024 consecutive cursors pick link i within one of its exact
      share 1024 * w / total. */
  lemma PicksWithinOneOfShare(ws: seq<real>, lo: nat, i: nat)
    requires ws != [] && Positive(ws) && i < |ws|
    ensures Sum(ws) > 0.0
    ensures var share := WEIGHT_GRID as real * ws[i] / Sum(ws);
            share - 1.0 < Picks(ws, lo, lo + WEIGHT_GRID, i) as real < share + 1.0
  {
    var grid := WEIGHT_GRID;
    forall c: nat
      ensures Repeats(ws, c, grid)
    {
      PickRepeats(ws, c);
    }
    WindowShift(ws, lo, grid, i);
    GridPosBounds(ws, i);
    PicksAreBelow(ws, grid, i);
    BelowIsCeil(grid, GridPos(ws, i));
    BelowIsCeil(grid, GridPos(ws, i + 1));
  }

  /** Total over links 0..n-1. */
  function TotalPicks(ws: seq<real>, lo: nat, hi: nat, n: nat): nat
    requires ws != [] && lo <= hi
  {
    if n == 0 then 0 else TotalPicks(ws, lo, hi, n - 1) + Picks(ws, lo, hi, n - 1)
  }

  lemma {:induction false} TotalPicksStep(ws: seq<real>, lo: nat, hi: nat, n: nat)
    requires ws != [] && lo < hi
    ensures TotalPicks(ws, lo, hi, n) == TotalPicks(ws, lo, hi - 1, n) + One(Pick(ws, hi - 1) < n)
  {
    if n > 0 {
      TotalPicksStep(ws, lo, hi, n - 1);
    }
  }

  lemma {:induction false} NoPicksYet(ws: seq<real>, lo: nat, n: nat)
    requires ws != []
    ensures TotalPicks(ws, lo, lo, n) == 0
  {
    if n > 0 {
      NoPicksYet(ws, lo, n - 1);
    }
  }

  /** Every cursor picks exactly one link. */
  lemma {:induction false} PicksAddUp(ws: seq<real>, lo: nat, hi: nat)
    requires ws != [] && Positive(ws) && lo <= hi
    ensures TotalPicks(ws, lo, hi, |ws|) == hi - lo
    decreases hi
  {
    if lo == hi {
      NoPicksYet(ws, lo, |ws|);
    } else {
      PicksAddUp(ws, lo, hi - 1);
      TotalPicksStep(ws, lo, hi, |ws|);
      PickSpans(ws, hi - 1);
    }
  }

  // ----- nobody starves

  ghost predicate NonNegative(raw: seq<real>) {
    forall i :: 0 <= i < |raw| ==> raw[i] >= 0.0
  }

  lemma {:induction false} SumBounded(xs: seq<real>, ys: seq<real>, extra: real)
    requires |xs| == |ys| && forall i :: 0 <= i < |xs| ==> xs[i] <= ys[i] + extra
    ensures Sum(xs) <= Sum(ys) + |xs| as real * extra
  {
    if xs != [] {
      var n := |xs| - 1;
      SumBounded(xs[..n], ys[..n], extra);
      assert |xs| as real * extra == n as real * extra + extra;
    }
  }

  lemma {:induction false} SumNonNegative(xs: seq<real>)
    requires NonNegative(xs)
    ensures Sum(xs) >= 0.0
  {
    if xs != [] {
      SumNonNegative(xs[..|xs| - 1]);
    }
  }

  lemma {:induction false} SumOfOnes(xs: seq<real>)
    requires forall i :: 0 <= i < |xs| ==> xs[i] == 1.0
    ensures Sum(xs) == |xs| as real
  {
    if xs != [] {
      SumOfOnes(xs[..|xs| - 1]);
    }
  }

  lemma WeightsPositive(raw: seq<real>)
    requires NonNegative(raw)
    ensures Positive(Weights(raw))
  {
    SumNonNegative(raw);
  }

  lemma WeightBounds(raw: seq<real>, j: nat)
    requires NonNegative(raw) && j < |raw| && Sum(raw) > 0.0
    ensures var t := Sum(raw); var mean := t / |raw| as real;
            FLOOR_SHARE * t <= Weights(raw)[j] <= raw[j] + (mean + FLOOR_SHARE * t)
  {
    hide Sum;
    DivNonNeg(Sum(raw), |raw| as real);
  }

  lemma MeasuredFloorShare(raw: seq<real>, i: nat)
    requires NonNegative(raw) && i < |raw| && Sum(raw) > 0.0
    ensures var ws := Weights(raw);
            FLOOR_SHARE * Sum(ws) <= ws[i] * (2.0 + FLOOR_SHARE * |raw| as real)
  {
    hide Sum, Weights;
    var ws, n, t := Weights(raw), |raw| as real, Sum(raw);
    var mean := t / n;
    forall j | 0 <= j < |ws|
      ensures ws[j] <= raw[j] + (mean + FLOOR_SHARE * t)
    {
      WeightBounds(raw, j);
    }
    WeightBounds(raw, i);
    SumBounded(ws, raw, mean + FLOOR_SHARE * t);
    MeanTimes(t, n);
    FloorArithmetic(ws[i], Sum(ws), t, n, mean);
  }

  /** A link's weight is at least 0.05 / (2 + 0.05 n) of the total. */
  lemma FloorShare(raw: seq<real>, i: nat)
    requires NonNegative(raw) && i < |raw|
    ensures var ws := Weights(raw);
            FLOOR_SHARE * Sum(ws) <= ws[i] * (2.0 + FLOOR_SHARE * |raw| as real)
  {
    hide Sum;
    SumNonNegative(raw);
    if Sum(raw) > 0.0 {
      MeasuredFloorShare(raw, i);
    } else {
      SumOfOnes(Weights(raw));
    }
  }

  lemma MeanTimes(t: real, n: real)
    requires n >= 1.0
    ensures n * (t / n) == t
  {
  }

  lemma FloorArithmetic(w: real, sum: real, t: real, n: real, mean: real)
    requires t > 0.0 && n >= 1.0 && n * mean == t && w >= FLOOR_SHARE * t
    requires sum <= t + n * (mean + FLOOR_SHARE * t)
    ensures FLOOR_SHARE * sum <= w * (2.0 + FLOOR_SHARE * n)
  {
    var k := 2.0 + FLOOR_SHARE * n;
    assert n * (mean + FLOOR_SHARE * t) == t + FLOOR_SHARE * n * t;
    assert sum <= k * t;
    assert w * k >= FLOOR_SHARE * t * k;
  }

  /** Every live link gets more than 51.2 / (2 + 0.05 n) - 1 of any 1024 consecutive picks,
      which is at least 9 with up to 64 links. */
  lemma NoLinkStarves(raw: seq<real>, lo: nat, i: nat)
    requires NonNegative(raw) && i < |raw|
    ensures var picks := Picks(Weights(raw), lo, lo + WEIGHT_GRID, i);
            && (picks as real + 1.0) * (2.0 + FLOOR_SHARE * |raw| as real) > 51.2
            && (|raw| <= 64 ==> picks >= 9)
  {
    hide Weights, Sum, Picks;
    var ws := Weights(raw);
    WeightsPositive(raw);
    PicksWithinOneOfShare(ws, lo, i);
    FloorShare(raw, i);
    var picks, k := Picks(ws, lo, lo + WEIGHT_GRID, i), 2.0 + FLOOR_SHARE * |raw| as real;
    ShareArithmetic(picks as real, ws[i], Sum(ws), k);
    if |raw| <= 64 && picks <= 8 {
      NinePicks(picks as real, k);
    }
  }

  lemma NinePicks(picks: real, k: real)
    requires picks <= 8.0 && 0.0 <= k <= 5.2
    ensures (picks + 1.0) * k <= 51.2
  {
    assert (picks + 1.0) * k <= 9.0 * k;
  }

  lemma ShareArithmetic(picks: real, w: real, sum: real, k: real)
    requires sum > 0.0 && k > 0.0 && FLOOR_SHARE * sum <= w * k
    requires picks > WEIGHT_GRID as real * w / sum - 1.0
    ensures (picks + 1.0) * k > 51.2
  {
    var share := 1024.0 * w / sum;
    assert share * sum == 1024.0 * w;
    assert (share * k) * sum == 1024.0 * (w * k) by {
      Rearrange(share, k, sum, 1024.0 * w);
    }
    var wk := w * k;
    assert 51.2 * sum <= 1024.0 * wk;
    CancelRight(51.2, share * k, sum);
    StrictScale(share, picks + 1.0, k);
  }

  lemma Rearrange(a: real, k: real, s: real, b: real)
    requires a * s == b
    ensures (a * k) * s == b * k
  {
  }

  lemma CancelRight(a: real, b: real, s: real)
    requires s > 0.0 && a * s <= b * s
    ensures a <= b
  {
  }

  lemma StrictScale(a: real, b: real, k: real)
    requires k > 0.0 && a < b
    ensures a * k < b * k
  {
  }

  // ----- the rate decides the share

  /** Once anything is measured, a link weighs what it measures, raised to the floor if it lies below;
      an unmeasured one weighs the mean or the floor, whichever is larger. */
  lemma WeightIs(raw: seq<real>, i: nat)
    requires NonNegative(raw) && i < |raw| && Sum(raw) > 0.0
    ensures var w, r := Weights(raw)[i], raw[i];
            var mean, floor := Sum(raw) / |raw| as real, 0.05 * Sum(raw);
            && (r > 0.0 && r >= floor ==> w == r)
            && (r > 0.0 && r < floor ==> w == floor)
            && (r == 0.0 ==> w >= mean && w >= floor && (w == mean || w == floor))
  {
    hide Sum;
  }

  /** With nothing measured all links weigh the same. */
  lemma ColdStartUniform(raw: seq<real>, i: nat, j: nat)
    requires Sum(raw) == 0.0 && i < |raw| && j < |raw|
    ensures Weights(raw)[i] == Weights(raw)[j] > 0.0
  {
    hide Sum;
  }

  predicate Measured(raw: seq<real>, i: nat) {
    i < |raw| && raw[i] > 0.0 && raw[i] >= 0.05 * Sum(raw)
  }

  /** A link measured at or above the floor gets picks in proportion to its rate, within one. */
  lemma MeasuredShare(raw: seq<real>, lo: nat, i: nat)
    requires NonNegative(raw) && Sum(raw) > 0.0 && Measured(raw, i)
    ensures Sum(Weights(raw)) > 0.0
    ensures var share := WEIGHT_GRID as real * raw[i] / Sum(Weights(raw));
            share - 1.0 < Picks(Weights(raw), lo, lo + WEIGHT_GRID, i) as real < share + 1.0
  {
    hide Sum, Picks;
    WeightsPositive(raw);
    WeightIs(raw, i);
    PicksWithinOneOfShare(Weights(raw), lo, i);
  }

  lemma CrossShares(p: real, q: real, r: real, s: real, k: real)
    requires r > 0.0 && s > 0.0 && p < k * r + 1.0 && q > k * s - 1.0
    ensures p * s - q * r < r + s
  {
    var a, b := (k * r + 1.0) * s, (k * s - 1.0) * r;
    StrictScale(p, k * r + 1.0, s);
    StrictScale(k * s - 1.0, q, r);
    Expand(k, r, s);
    assert a - b == s + r;
  }

  lemma Expand(k: real, r: real, s: real)
    ensures (k * r + 1.0) * s == k * (r * s) + s && (k * s - 1.0) * r == k * (r * s) - r
  {
    assert (k * r) * s == k * (r * s);
    assert (k * s) * r == k * (r * s);
  }

  lemma ShareFactor(r: real, total: real)
    requires total > 0.0
    ensures WEIGHT_GRID as real * r / total == (WEIGHT_GRID as real / total) * r
  {
  }

  /** Of two links measured at or above the floor, the picks stand to each other as the rates, each
      within one. */
  lemma RatesDecide(raw: seq<real>, lo: nat, i: nat, j: nat)
    requires NonNegative(raw) && Sum(raw) > 0.0 && Measured(raw, i) && Measured(raw, j)
    ensures var p := Picks(Weights(raw), lo, lo + WEIGHT_GRID, i) as real;
            var q := Picks(Weights(raw), lo, lo + WEIGHT_GRID, j) as real;
            -(raw[i] + raw[j]) < p * raw[j] - q * raw[i] < raw[i] + raw[j]
  {
    hide Sum, Picks, Weights;
    MeasuredShare(raw, lo, i);
    MeasuredShare(raw, lo, j);
    var total := Sum(Weights(raw));
    var k := WEIGHT_GRID as real / total;
    ShareFactor(raw[i], total);
    ShareFactor(raw[j], total);
    var p := Picks(Weights(raw), lo, lo + WEIGHT_GRID, i) as real;
    var q := Picks(Weights(raw), lo, lo + WEIGHT_GRID, j) as real;
    CrossShares(p, q, raw[i], raw[j], k);
    CrossShares(q, p, raw[j], raw[i], k);
  }
}
