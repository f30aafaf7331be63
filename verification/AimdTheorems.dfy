/** How fast a controller grows and shrinks, and how two controllers compare. */
module AimdTheorems {
  import opened Common
  import opened Pipeline

  function Pow2(k: nat): real {
    if k == 0 then 1.0 else 2.0 * Pow2(k - 1)
  }

  lemma Pow2AtLeastOne(k: nat)
    ensures Pow2(k) >= 1.0
  {
  }

  // ---- one step -------------------------------------------------------------

  /** Squaring the additive increase: (d + 1/d)^2 = d^2 + 2 + 1/d^2, and the last term is at most 1. */
  lemma SquareOfIncrease(d: real)
    requires d >= 1.0
    ensures d * d + 2.0 <= (d + 1.0 / d) * (d + 1.0 / d) <= d * d + 3.0
    ensures d + 1.0 / d > d
  {
    var r := 1.0 / d;
    assert d * r == 1.0;
    assert 0.0 < r <= 1.0;
    assert (d + r) * (d + r) == d * d + 2.0 * (d * r) + r * r;
    assert 0.0 <= r * r <= 1.0 by { ProductBounds(r, r); }
  }

  lemma ProductBounds(x: real, y: real)
    requires 0.0 <= x <= 1.0 && 0.0 <= y <= 1.0
    ensures 0.0 <= x * y <= 1.0
  {
    NonNegativeProduct(x, y);
    NonNegativeProduct(1.0 - x, y);
    assert (1.0 - x) * y == y - x * y;
  }

  lemma NonNegativeProduct(x: real, y: real)
    requires 0.0 <= x && 0.0 <= y
    ensures 0.0 <= x * y
  {
  }

  lemma ScaleMonotone(x: real, y: real, z: real)
    requires x <= y && 0.0 <= z
    ensures x * z <= y * z
  {
    assert (y - x) * z >= 0.0;
  }

  lemma SquareMonotone(x: real, y: real)
    requires 0.0 <= x <= y
    ensures x * x <= y * y
  {
    ScaleMonotone(x, y, x);
    ScaleMonotone(x, y, y);
  }

  lemma SquareReflects(x: real, y: real)
    requires 0.0 <= x && 0.0 <= y && x * x <= y * y
    ensures x <= y
  {
    if x > y {
      StrictSquares(y, x);
    }
  }

  lemma StrictSquares(y: real, x: real)
    requires 0.0 <= y < x
    ensures y * y < x * x
  {
    PositiveProduct(x - y, x);
    NonNegativeProduct(x - y, y);
    ChainSquares(y, x, x * x, x * y, y * y);
  }

  // Names for the three products keep the last step linear.
  lemma ChainSquares(y: real, x: real, xx: real, xy: real, yy: real)
    requires xx == x * x && xy == x * y && yy == y * y
    requires 0.0 < (x - y) * x && 0.0 <= (x - y) * y
    ensures yy < xx
  {
    assert (x - y) * x == xx - xy;
    assert (x - y) * y == xy - yy;
  }

  lemma PositiveProduct(x: real, y: real)
    requires 0.0 < x && 0.0 < y
    ensures 0.0 < x * y
  {
  }

  lemma RecordStaysInRange(c: Control, success: bool)
    requires InRange(c)
    ensures InRange(Record(c, success))
    ensures Record(c, success).minDepth == c.minDepth && Record(c, success).maxDepth == c.maxDepth
  {
  }

  // ---- whole histories ------------------------------------------------------

  /** A run never leaves [minDepth, maxDepth], and the integer depth the gate uses stays there too. */
  lemma {:induction false} ReplayStaysInRange(c: Control, outcomes: seq<bool>)
    requires InRange(c)
    ensures InRange(Replay(c, outcomes))
    ensures Replay(c, outcomes).minDepth == c.minDepth && Replay(c, outcomes).maxDepth == c.maxDepth
    ensures c.minDepth <= IntegerDepth(Replay(c, outcomes)) <= c.maxDepth
    decreases |outcomes|
  {
    if outcomes != [] {
      RecordStaysInRange(c, outcomes[0]);
      ReplayStaysInRange(Record(c, outcomes[0]), outcomes[1..]);
    }
  }

  /** Slow start is left after the first failure or third success of a fresh controller, and never re-entered. */
  lemma {:induction false} SteadyIsForever(c: Control, outcomes: seq<bool>)
    requires c.phase == Steady
    ensures Replay(c, outcomes).phase == Steady
    decreases |outcomes|
  {
    if outcomes != [] {
      SteadyIsForever(Record(c, outcomes[0]), outcomes[1..]);
    }
  }

  lemma FreshControllerReachesSteady(outcomes: seq<bool>)
    ensures Replay(Default(), outcomes).phase == Steady <==> |outcomes| >= 3 || false in outcomes
  {
    var c := Default();
    SlowStartUnfolds(c, outcomes);
    if |outcomes| >= 1 && outcomes[0] {
      c := Succeeded(c);
      SlowStartUnfolds(c, outcomes[1..]);
      if |outcomes| >= 2 && outcomes[1] {
        c := Succeeded(c);
        SlowStartUnfolds(c, outcomes[1..][1..]);
      }
    }
  }

  /** One unfolding of a history that starts in slow start. */
  lemma SlowStartUnfolds(c: Control, outcomes: seq<bool>)
    requires c.phase == SlowStart
    ensures outcomes == [] ==> Replay(c, outcomes).phase == SlowStart
    ensures outcomes != [] ==> Replay(c, outcomes) == Replay(Record(c, outcomes[0]), outcomes[1..])
    ensures outcomes != [] && (!outcomes[0] || c.depth * 2.0 >= c.ssthresh) ==> Replay(c, outcomes).phase == Steady
    ensures outcomes != [] && outcomes[0] ==> (false in outcomes <==> false in outcomes[1..])
  {
    if outcomes != [] && (!outcomes[0] || c.depth * 2.0 >= c.ssthresh) {
      SteadyIsForever(Record(c, outcomes[0]), outcomes[1..]);
    }
  }

  // ---- growth ---------------------------------------------------------------

  /** `depth` lies between the square roots of `low` (or the cap, if that is smaller) and `high`. */
  predicate SquareWithin(depth: real, maxDepth: int, low: real, high: real) {
    RealMin(maxDepth as real * maxDepth as real, low) <= depth * depth <= high
  }

  /** One clamped increase: a lower bound on depth^2 advances by 2 (or meets the cap), an upper bound by 3. */
  lemma IncreaseAdvances(d: real, maxDepth: int, low: real, high: real)
    requires 1.0 <= d <= maxDepth as real
    requires SquareWithin(d, maxDepth, low, high)
    ensures SquareWithin(Increase(d, maxDepth), maxDepth, low + 2.0, high + 3.0)
  {
    SquareOfIncrease(d);
    var cap, up := maxDepth as real, d + 1.0 / d;
    if up > cap {
      SquareMonotone(cap, up);
    }
  }

  /**
   k successes in steady phase move depth^2 forward by between 2k and 3k, up to the cap
   (`low` and `high` can both be the square of the first depth).
   */
  lemma {:induction false} GrowthBound(c: Control, k: nat, low: real, high: real)
    requires c.phase == Steady && InRange(c)
    requires SquareWithin(c.depth, c.maxDepth, low, high)
    ensures InRange(Repeat(c, true, k)) && Repeat(c, true, k).phase == Steady
    ensures Repeat(c, true, k).minDepth == c.minDepth && Repeat(c, true, k).maxDepth == c.maxDepth
    ensures SquareWithin(Repeat(c, true, k).depth, c.maxDepth, low + 2.0 * k as real, high + 3.0 * k as real)
  {
    if k > 0 {
      GrowthBound(c, k - 1, low, high);
      var before := Repeat(c, true, k - 1);
      var low', high' := low + 2.0 * (k - 1) as real, high + 3.0 * (k - 1) as real;
      RecordStaysInRange(before, true);
      IncreaseAdvances(before.depth, c.maxDepth, low', high');
      assert low' + 2.0 == low + 2.0 * k as real && high' + 3.0 == high + 3.0 * k as real;
    } else {
      assert low + 2.0 * k as real == low && high + 3.0 * k as real == high;
    }
  }

  // As above: `start` and `cap2` name the two squares.
  lemma CapDecided(d: real, maxDepth: int, start: real, cap2: real, k: real)
    requires 0.0 <= d <= maxDepth as real && cap2 == maxDepth as real * maxDepth as real
    requires SquareWithin(d, maxDepth, start + 2.0 * k, start + 3.0 * k)
    ensures start + 2.0 * k >= cap2 ==> d == maxDepth as real
    ensures start + 3.0 * k < cap2 ==> d < maxDepth as real
  {
    if start + 2.0 * k >= cap2 {
      SquareReflects(maxDepth as real, d);
    }
  }

  /**
   The cap is reached once 2k covers maxDepth^2 - depth^2, and is not reached while 3k falls short of it.
   The parameters `start` and `cap2` are those two squares.
   */
  lemma CapReachedInTime(c: Control, k: nat, start: real, cap2: real)
    requires c.phase == Steady && InRange(c)
    requires start == c.depth * c.depth && cap2 == c.maxDepth as real * c.maxDepth as real
    ensures start + 2.0 * k as real >= cap2 ==> Repeat(c, true, k).depth == c.maxDepth as real
    ensures start + 3.0 * k as real < cap2 ==> Repeat(c, true, k).depth < c.maxDepth as real
  {
    GrowthBound(c, k, start, start);
    CapDecided(Repeat(c, true, k).depth, c.maxDepth, start, cap2, k as real);
  }

  /** k failures in a row give exactly max(minDepth, depth / 2^k). */
  lemma {:induction false} BackoffIsExact(c: Control, k: nat)
    requires c.minDepth >= 0 && c.minDepth as real <= c.depth
    ensures Pow2(k) > 0.0
    ensures Repeat(c, false, k).depth == RealMax(c.minDepth as real, c.depth / Pow2(k))
    ensures Repeat(c, false, k).minDepth == c.minDepth
  {
    Pow2AtLeastOne(k);
    if k > 0 {
      BackoffIsExact(c, k - 1);
      Pow2AtLeastOne(k - 1);
      var p := Pow2(k - 1);
      assert c.depth / p / 2.0 == c.depth / (2.0 * p) by { NestedDivision(c.depth, p); }
    }
  }

  lemma NestedDivision(d: real, p: real)
    requires p > 0.0
    ensures d / p / 2.0 == d / (2.0 * p)
  {
    var q := d / p;
    assert q * p == d;
    assert (q / 2.0) * (2.0 * p) == d;
  }

  // ---- comparing two controllers --------------------------------------------

  /** `a` trails `b` by at most `gap`; both are steady and share their bounds. */
  predicate Trails(a: Control, b: Control, gap: real) {
    && a.phase == Steady && b.phase == Steady
    && a.minDepth == b.minDepth && a.maxDepth == b.maxDepth
    && InRange(a) && InRange(b)
    && a.depth <= b.depth <= a.depth + gap
  }

  /** (b + 1/b) - (a + 1/a) = (b - a)(1 - 1/(ab)): increasing keeps the order and cannot widen the gap. */
  lemma IncreaseContracts(a: real, b: real)
    requires 1.0 <= a <= b
    ensures 0.0 <= (b + 1.0 / b) - (a + 1.0 / a) <= b - a
  {
    ReciprocalWithin(a);
    ReciprocalWithin(b);
    GapContracts(a, 1.0 / a, b, 1.0 / b);
  }

  lemma GapContracts(a: real, ra: real, b: real, rb: real)
    requires a <= b && a * ra == 1.0 && b * rb == 1.0 && 0.0 < ra <= 1.0 && 0.0 < rb <= 1.0
    ensures 0.0 <= (b + rb) - (a + ra) <= b - a
  {
    var m := ra * rb;
    ProductBounds(ra, rb);
    ReciprocalGap(a, ra, b, rb);
    ScaleBounds(b - a, m);
    var xm := (b - a) * m;
    assert ra - rb == xm && 0.0 <= xm <= b - a;
  }

  lemma ReciprocalWithin(x: real)
    requires 1.0 <= x
    ensures 0.0 < 1.0 / x <= 1.0 && x * (1.0 / x) == 1.0
  {
  }

  lemma ReciprocalGap(a: real, ra: real, b: real, rb: real)
    requires a * ra == 1.0 && b * rb == 1.0
    ensures ra - rb == (b - a) * (ra * rb)
  {
    var m := ra * rb;
    assert b * m == ra * (b * rb);
    assert a * m == rb * (a * ra);
    assert (b - a) * m == b * m - a * m;
  }

  lemma ScaleBounds(x: real, m: real)
    requires 0.0 <= x && 0.0 <= m <= 1.0
    ensures 0.0 <= x * m <= x
  {
    assert x - x * m == x * (1.0 - m);
  }

  lemma RecordContracts(a: Control, b: Control, gap: real, success: bool)
    requires Trails(a, b, gap)
    ensures Trails(Record(a, success), Record(b, success), gap)
  {
    if success {
      IncreaseContracts(a.depth, b.depth);
    }
  }

  /** Fed the same outcomes, two steady controllers keep their order and never drift further apart. */
  lemma {:induction false} ReplayContracts(a: Control, b: Control, gap: real, outcomes: seq<bool>)
    requires Trails(a, b, gap)
    ensures Trails(Replay(a, outcomes), Replay(b, outcomes), gap)
    decreases |outcomes|
  {
    if outcomes != [] {
      RecordContracts(a, b, gap, outcomes[0]);
      ReplayContracts(Record(a, outcomes[0]), Record(b, outcomes[0]), gap, outcomes[1..]);
    }
  }

  // ---- slow start, step by step -----------------------------------------------------------------

  /** A fresh controller: two operations may be in flight, and at most 32 ever. */
  lemma FreshController()
    ensures Default() == Control(2.0, 16.0, SlowStart, 1, 32) && IntegerDepth(Default()) == 2
    ensures forall c: Control :: c.minDepth == 1 && c.maxDepth == 32 ==> Restarted(c) == Default()
  {
  }

  function Doublings(d: real, k: nat): real {
    if k == 0 then d else 2.0 * Doublings(d, k - 1)
  }

  lemma {:induction false} DoublingsArePowers(d: real, k: nat)
    ensures Doublings(d, k) == d * Pow2(k)
    ensures 0.0 < d ==> 0.0 < Doublings(d, k) < Doublings(d, k + 1)
  {
    if k > 0 {
      DoublingsArePowers(d, k - 1);
      TwiceProduct(d, Pow2(k - 1));
    }
  }

  lemma TwiceProduct(x: real, y: real)
    ensures x * (2.0 * y) == 2.0 * (x * y)
  {
  }

  lemma {:induction false} SlowStartUntil(c: Control, k: nat)
    requires c.phase == SlowStart && 0.0 < c.depth && c.ssthresh <= c.maxDepth as real
    requires Doublings(c.depth, k) < c.ssthresh
    ensures Repeat(c, true, k) == c.(depth := Doublings(c.depth, k))
  {
    if k > 0 {
      DoublingsArePowers(c.depth, k - 1);
      SlowStartUntil(c, k - 1);
    }
  }

  /** Below the threshold every success doubles the depth and changes nothing else. */
  lemma SlowStartDoubles(c: Control, k: nat)
    requires c.phase == SlowStart && 0.0 < c.depth && c.ssthresh <= c.maxDepth as real
    requires c.depth * Pow2(k) < c.ssthresh
    ensures Repeat(c, true, k) == c.(depth := c.depth * Pow2(k))
  {
    hide Pow2, Doublings, Repeat;
    DoublingsArePowers(c.depth, k);
    SlowStartUntil(c, k);
  }

  /** The success that reaches the threshold still doubles the depth, up to the cap, and ends slow start. */
  lemma SlowStartEnds(c: Control, k: nat)
    requires c.phase == SlowStart && 0.0 < c.depth && c.ssthresh <= c.maxDepth as real
    requires c.depth * Pow2(k) < c.ssthresh <= c.depth * Pow2(k + 1)
    ensures var c' := Repeat(c, true, k + 1);
            && c'.depth == RealMin(c.depth * Pow2(k + 1), c.maxDepth as real)
            && c' == c.(depth := c'.depth, phase := Steady)
  {
    hide Pow2, Doublings, Repeat;
    DoublingsArePowers(c.depth, k);
    DoublingsArePowers(c.depth, k + 1);
    LastDoubling(c, k);
    var c' := Repeat(c, true, k + 1);
    assert c'.phase == Steady && c'.depth == RealMin(Doublings(c.depth, k + 1), c.maxDepth as real);
    assert Doublings(c.depth, k + 1) == c.depth * Pow2(k + 1);
  }

  lemma LastDoubling(c: Control, k: nat)
    requires c.phase == SlowStart && 0.0 < c.depth && c.ssthresh <= c.maxDepth as real
    requires Doublings(c.depth, k) < c.ssthresh <= Doublings(c.depth, k + 1)
    ensures Repeat(c, true, k + 1)
         == c.(depth := RealMin(Doublings(c.depth, k + 1), c.maxDepth as real), phase := Steady)
  {
    SlowStartUntil(c, k);
    assert Repeat(c, true, k + 1) == Succeeded(c.(depth := Doublings(c.depth, k)));
  }

  /** In the steady phase a success adds the reciprocal of the depth, unless that would pass the cap. */
  lemma SteadySuccessAddsReciprocal(c: Control)
    requires c.phase == Steady && InRange(c)
    ensures var d, d' := c.depth, Record(c, true).depth; var cap := c.maxDepth as real;
            d' <= cap && if d' < cap then (d' - d) * d == 1.0 else (cap - d) * d <= 1.0
    ensures Record(c, true) == c.(depth := Record(c, true).depth)
  {
    var d, r, cap := c.depth, 1.0 / c.depth, c.maxDepth as real;
    assert r * d == 1.0;
    if d + r >= cap {
      ScaleMonotone(cap - d, r, d);
    }
  }

  /** A failure halves the depth, not below the minimum, remembers that depth as the threshold, and ends slow start. */
  lemma FailureHalves(c: Control)
    requires InRange(c)
    ensures var c' := Record(c, false);
            && c'.phase == Steady && c'.ssthresh == c'.depth
            && 2.0 * c'.depth >= c.depth && c'.depth <= c.depth
            && (c'.depth == c.minDepth as real || 2.0 * c'.depth == c.depth)
  {
  }

  /** In slow start and after it, the whole number in force is the depth rounded down. */
  lemma IntegerDepthIsFloor(c: Control)
    requires InRange(c)
    ensures IntegerDepth(c) as real <= c.depth < IntegerDepth(c) as real + 1.0
    ensures c.minDepth <= IntegerDepth(c) <= c.maxDepth
  {
  }
}
