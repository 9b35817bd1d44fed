/** Jittered exponential backoff of the broker socket (frontend/remote/broker-client.js): how
    long one reconnect waits, and how long a whole losing streak waits in total. */
module ReconnectBackoff {
  import opened Options

  const BASE_DELAY_MS := 1500
  const MAX_DELAY_MS := 60000
  const STABLE_SESSION_MS := 60000

  function Min(a: int, b: int): int { if a <= b then a else b }
  function Max(a: int, b: int): int { if a >= b then a else b }

  function Pow2(n: nat): (p: nat)
    ensures p >= 1
  {
    if n == 0 then 1 else 2 * Pow2(n - 1)
  }

  lemma {:induction false} Pow2AtLeast64(n: nat)
    requires n >= 6
    ensures Pow2(n) >= 64
  {
    if n > 6 {
      Pow2AtLeast64(n - 1);
    } else {
      assert Pow2(1) == 2 && Pow2(2) == 4 && Pow2(3) == 8;
      assert Pow2(4) == 16 && Pow2(5) == 32;
    }
  }

  // ---------------------------------------------------------------- doubles

  /** Numbers are counted in units of 2^-53, the spacing of `Math.random()`, so this is 1. */
  const ONE: nat := 0x20_0000_0000_0000

  /** The spacing of doubles around `x`: 53 bits are kept. */
  function Unit(x: nat): (u: nat)
    ensures u >= 1
  {
    if x < ONE then 1 else 2 * Unit(x / 2)
  }

  /** The nearest multiple of `u`, ties to the even one. */
  function ToNearest(x: nat, u: nat): nat
    requires u >= 1
  {
    NearerOf(x / u, x % u, u)
  }

  function NearerOf(q: nat, r: nat, u: nat): nat {
    if 2 * r < u || (2 * r == u && q % 2 == 0) then q * u else (q + 1) * u
  }

  /** The double nearest to `x`. */
  function Round(x: nat): nat { ToNearest(x, Unit(x)) }

  lemma {:induction false} UnitRange(x: nat)
    requires x >= ONE
    ensures ONE / 2 * Unit(x) <= x < ONE * Unit(x)
  {
    if x / 2 >= ONE { UnitRange(x / 2); }
  }

  lemma {:induction false} UnitIs(x: nat, e: nat)
    requires e >= 1 && ONE / 2 * Pow2(e) <= x < ONE * Pow2(e)
    ensures Unit(x) == Pow2(e)
    decreases e
  {
    if e == 1 {
      assert Pow2(1) == 2;
      assert Unit(x / 2) == 1;
    } else {
      UnitIs(x / 2, e - 1);
    }
  }

  lemma {:induction false} UnitDoubles(a: nat, b: nat)
    requires a <= b
    ensures Unit(a) == Unit(b) || 2 * Unit(a) <= Unit(b)
    decreases b
  {
    if a >= ONE { UnitDoubles(a / 2, b / 2); }
  }

  lemma NearestBetween(x: nat, u: nat)
    requires u >= 1
    ensures x / u * u <= ToNearest(x, u) <= x / u * u + u
    ensures x == x / u * u + x % u && x % u < u
  {
  }

  lemma QuotientMonotone(a: nat, b: nat, u: nat)
    requires a <= b && u >= 1
    ensures a / u <= b / u
  {
    if a / u > b / u { Scale(b / u + 1, a / u, u); }
  }

  lemma Scale(a: int, b: int, u: nat)
    requires a <= b
    ensures a * u <= b * u
  {
  }

  lemma NearerMonotone(q: nat, r: nat, r': nat, u: nat)
    requires r <= r'
    ensures NearerOf(q, r, u) <= NearerOf(q, r', u)
  {
  }

  lemma NearestMonotone(a: nat, b: nat, u: nat)
    requires a <= b && u >= 1
    ensures ToNearest(a, u) <= ToNearest(b, u)
  {
    QuotientMonotone(a, b, u);
    if a / u < b / u {
      NearestApart(a, b, u);
    } else {
      NearestBetween(a, u);
      NearestBetween(b, u);
      assert a % u <= b % u;
      NearerMonotone(a / u, a % u, b % u, u);
    }
  }

  lemma NearestApart(a: nat, b: nat, u: nat)
    requires u >= 1 && a / u < b / u
    ensures ToNearest(a, u) <= ToNearest(b, u)
  {
    NearestBetween(a, u);
    NearestBetween(b, u);
    Next(a / u, u);
    Scale(a / u + 1, b / u, u);
  }

  /** A multiple of the spacing below or above bounds the rounding too. */
  lemma NearestAbove(x: nat, u: nat, q: nat)
    requires u >= 1 && q * u <= x
    ensures q * u <= ToNearest(x, u)
  {
    NearestBetween(x, u);
    if q > x / u { Scale(x / u + 1, q, u); }
    Scale(q, x / u, u);
  }

  lemma NearestBelow(x: nat, u: nat, q: nat)
    requires u >= 1 && x < q * u
    ensures ToNearest(x, u) <= q * u
  {
    NearestBetween(x, u);
    if q <= x / u { Scale(q, x / u, u); }
    Scale(x / u + 1, q, u);
  }

  /** Rounding is monotone. */
  lemma RoundMonotone(a: nat, b: nat)
    requires a <= b
    ensures Round(a) <= Round(b)
  {
    UnitDoubles(a, b);
    if Unit(a) == Unit(b) {
      NearestMonotone(a, b, Unit(a));
    } else {
      if a >= ONE { UnitRange(a); }
      if b >= ONE { UnitRange(b); }
      NearestBelow(a, Unit(a), ONE);
      NearestAbove(b, Unit(b), ONE / 2);
      Scale(ONE / 2, ONE / 2, Unit(b));
    }
  }

  lemma NearerIs(k: nat, r: nat, u: nat, q: nat)
    requires r < u && (k == q || k + 1 == q)
    requires k == q ==> 2 * r < u
    requires k + 1 == q ==> 2 * (u - r) < u || (2 * (u - r) == u && q % 2 == 0)
    ensures NearerOf(k, r, u) == q * u
  {
  }

  /** The multiple `q` of the spacing is nearest: strictly, or as the even one of two. */
  lemma NearestIs(x: nat, u: nat, q: nat)
    requires u >= 1
    requires 2 * (x - q * u) < u
    requires 2 * (q * u - x) < u || (2 * (q * u - x) == u && q % 2 == 0)
    ensures ToNearest(x, u) == q * u
  {
    NearestBetween(x, u);
    var k := x / u;
    QuotientNear(x, u, q);
    assert (k + 1) * u == k * u + u;
    NearerIs(k, x % u, u, q);
  }

  lemma Next(a: int, u: nat)
    ensures (a + 1) * u == a * u + u
  {
  }

  lemma QuotientNear(x: nat, u: nat, q: nat)
    requires u >= 1 && 2 * (x - q * u) < u && 2 * (q * u - x) <= u
    ensures x / u == q || x / u + 1 == q
  {
    NearestBetween(x, u);
    var k := x / u;
    Next(k, u);
    Next(q, u);
    Next(q - 1, u);
    if k > q { Scale(q + 1, k, u); }
    if k < q - 1 { Scale(k + 1, q - 1, u); }
  }

  /** `near` is the double nearest to `x`, the even one in a tie from below. */
  lemma RoundIs(x: nat, e: nat, u: nat, q: nat, near: nat)
    requires e >= 1 && u == Pow2(e) && near == q * u && ONE / 2 * u <= x < ONE * u
    requires 2 * (x - near) < u
    requires 2 * (near - x) < u || (2 * (near - x) == u && q % 2 == 0)
    ensures Round(x) == near
  {
    UnitIs(x, e);
    NearestIs(x, u, q);
  }

  // ---------------------------------------------------------------- one delay

  function Cap(failures: nat): (cap: nat)
    ensures cap >= BASE_DELAY_MS
  {
    Min(BASE_DELAY_MS * Pow2(Min(failures, 31)), MAX_DELAY_MS)
  }

  /** `Math.floor(floor + draw * width)` in doubles, for a draw of so many units. */
  function Jittered(floor: nat, width: nat, draw: nat): nat {
    Round(floor * ONE + Round(draw * width)) / ONE
  }

  /** The delay for a draw of `Math.random()`, as the source computes it. */
  function Delay(failures: nat, draw: nat): int {
    var cap := Cap(failures);
    var floor := Max(1, cap / 2);
    Jittered(floor, cap - floor + 1, draw)
  }

  /** The smallest and the largest delay intended after `failures` failures, without the source's
      cap on the exponent. */
  function Shortest(failures: nat): int { Min(750 * Pow2(failures), 30000) }
  function Longest(failures: nat): int { Min(1500 * Pow2(failures), 60000) }

  lemma CapIsLongest(failures: nat)
    ensures Cap(failures) == Longest(failures)
    ensures Cap(failures) / 2 == Shortest(failures)
    ensures 750 <= Shortest(failures) <= 30000
    ensures Longest(failures) == 2 * Shortest(failures)
  {
    if failures > 31 {
      Pow2AtLeast64(failures);
      Pow2AtLeast64(31);
    }
  }

  /** The rungs, each with the spacing 2^(e-53) of doubles just below its width. */
  predicate Rung(low: nat, e: nat) {
    || (low == 750 && e == 10) || (low == 1500 && e == 11) || (low == 3000 && e == 12)
    || (low == 6000 && e == 13) || (low == 12000 && e == 14) || (low == 24000 && e == 15)
    || (low == 30000 && e == 15)
  }

  lemma Powers()
    ensures Pow2(1) == 2 && Pow2(2) == 4 && Pow2(3) == 8 && Pow2(4) == 16 && Pow2(5) == 32
    ensures Pow2(10) == 0x400 && Pow2(11) == 0x800 && Pow2(12) == 0x1000 && Pow2(13) == 0x2000
    ensures Pow2(14) == 0x4000 && Pow2(15) == 0x8000 && Pow2(16) == 0x1_0000 && Pow2(17) == 0x2_0000
  {
    assert Pow2(5) == 32;
    assert Pow2(10) == 0x400;
    assert Pow2(15) == 0x8000;
  }

  lemma IsRung(failures: nat) returns (e: nat)
    ensures Rung(Shortest(failures), e)
    ensures Shortest(failures) == 30000 <==> failures >= 6
  {
    Powers();
    if failures >= 6 { Pow2AtLeast64(failures); }
    e := if failures >= 6 then 15 else 10 + failures;
  }

  /** What lies `d` below a whole number rounds to `m` spacings below it. */
  lemma RoundBelow(top: nat, d: nat, e: nat, u: nat, m: nat)
    requires e >= 1 && u == Pow2(e) && ONE / u * u == ONE && 0 <= m <= 2 && m * u <= top * ONE && d <= top * ONE
    requires ONE / 2 * u <= top * ONE - d < ONE * u
    requires 2 * (m * u) - u < 2 * d
    requires 2 * d < 2 * (m * u) + u
    ensures Round(top * ONE - d) == top * ONE - m * u
  {
    var g := ONE / u;
    Regroup(top, g, u, m);
    var q := top * g - m;
    if q < 0 { Scale(q, -1, u); }
    RoundIs(top * ONE - d, e, u, q, top * ONE - m * u);
  }

  lemma Regroup(a: int, g: int, u: int, m: int)
    ensures (a * g - m) * u == a * (g * u) - m * u
  {
  }

  /** `j` widths below the top of the product. */
  lemma ProductBelow(low: nat, e: nat, d: nat, m: nat)
    requires Rung(low, e) && 1 <= m <= 2 && d <= 3 * (low + 1)
    requires 2 * (m * Pow2(e)) - Pow2(e) < 2 * d < 2 * (m * Pow2(e)) + Pow2(e)
    ensures Round((low + 1) * ONE - d) == (low + 1) * ONE - m * Pow2(e)
  {
    Powers();
    RoundBelow(low + 1, d, e, Pow2(e), m);
  }

  /** The product of a draw `j` units below 1 loses the `m` spacings nearest to `j` widths. */
  lemma ProductNearTop(low: nat, e: nat, j: nat, m: nat)
    requires Rung(low, e) && 1 <= j <= 3 && 1 <= m <= 2 && Loses(low, e, j, m)
    ensures Round((ONE - j) * (low + 1)) == (low + 1) * ONE - m * Pow2(e)
  {
    Difference(ONE, j, low + 1);
    Scale(j, 3, low + 1);
    ProductBelow(low, e, j * (low + 1), m);
  }

  lemma Difference(a: int, b: int, c: int)
    ensures (a - b) * c == c * a - b * c
  {
  }

  predicate Loses(low: nat, e: nat, j: nat, m: nat) {
    2 * (m * Pow2(e)) - Pow2(e) < 2 * (j * (low + 1)) < 2 * (m * Pow2(e)) + Pow2(e)
  }

  /** Half a spacing short of the top rounds up to it, */
  lemma HalfShort(low: nat, e: nat)
    requires Rung(low, e)
    ensures Round(low * ONE + ((low + 1) * ONE - Pow2(e))) == (2 * low + 1) * ONE
  {
    Powers();
    var v := Pow2(e + 1);
    var h := ONE / v / 2;
    assert 2 * h * v == ONE;
    Regroup(2 * low + 1, 2 * h, v, 0);
    Even(2 * low + 1, h);
    RoundIs(low * ONE + ((low + 1) * ONE - Pow2(e)), e + 1, v, (2 * low + 1) * (2 * h), (2 * low + 1) * ONE);
  }

  lemma Even(a: nat, h: nat)
    ensures (a * (2 * h)) % 2 == 0
  {
    assert a * (2 * h) == 2 * (a * h);
  }

  /** a whole one does not. */
  lemma WholeShort(low: nat, e: nat)
    requires Rung(low, e)
    ensures Round(low * ONE + ((low + 1) * ONE - 2 * Pow2(e))) == (2 * low + 1) * ONE - 2 * Pow2(e)
  {
    Powers();
    var v := Pow2(e + 1);
    var g := ONE / v;
    assert g * v == ONE;
    Regroup(2 * low + 1, g, v, 1);
    RoundIs(low * ONE + ((low + 1) * ONE - 2 * Pow2(e)), e + 1, v, (2 * low + 1) * g - 1, (2 * low + 1) * ONE - v);
  }

  /** The largest draw whose delay is not above the intended longest. */
  function LastFit(low: nat): nat { if low == 30000 then ONE - 2 else ONE - 3 }

  lemma NearTop(low: nat, e: nat, j: nat, m: nat)
    requires Rung(low, e) && 1 <= j <= 3 && 1 <= m <= 2 && Loses(low, e, j, m)
    ensures Jittered(low, low + 1, ONE - j) == if m == 1 then 2 * low + 1 else 2 * low
  {
    Powers();
    ProductNearTop(low, e, j, m);
    if m == 1 { HalfShort(low, e); } else { WholeShort(low, e); }
  }

  lemma JitterMonotone(floor: nat, width: nat, a: nat, b: nat)
    requires a <= b
    ensures Jittered(floor, width, a) <= Jittered(floor, width, b)
  {
    assert a * width <= b * width;
    RoundMonotone(a * width, b * width);
    RoundMonotone(floor * ONE + Round(a * width), floor * ONE + Round(b * width));
    QuotientMonotone(Round(floor * ONE + Round(a * width)), Round(floor * ONE + Round(b * width)), ONE);
  }

  lemma LowestJitter(low: nat, e: nat)
    requires Rung(low, e)
    ensures Jittered(low, low + 1, 0) == low
  {
    Powers();
    assert Round(0) == 0;
    RoundBelow(low, 0, e, Pow2(e), 0);
  }

  lemma RungEnds(low: nat, e: nat)
    requires Rung(low, e)
    ensures Jittered(low, low + 1, LastFit(low)) == 2 * low
    ensures Jittered(low, low + 1, LastFit(low) + 1) == 2 * low + 1
    ensures Jittered(low, low + 1, ONE - 1) == 2 * low + 1
  {
    Powers();
    NearTop(low, e, 1, 1);
    if low == 30000 {
      NearTop(low, e, 2, 2);
    } else {
      NearTop(low, e, 2, 1);
      NearTop(low, e, 3, 2);
    }
  }

  /** Every draw keeps the delay between half the cap and the cap, but for the largest: the draw
      1 - 2^-53, and up to five failures also 1 - 2^-52, wait one millisecond more. */
  lemma DelayExactly(failures: nat, draw: nat)
    requires draw < ONE
    ensures Shortest(failures) <= Delay(failures, draw) <= Longest(failures) + 1
    ensures Delay(failures, draw) == Longest(failures) + 1 <==> draw >= (if failures >= 6 then ONE - 1 else ONE - 2)
  {
    CapIsLongest(failures);
    var e := IsRung(failures);
    var low := Shortest(failures);
    LowestJitter(low, e);
    RungEnds(low, e);
    JitterMonotone(low, low + 1, 0, draw);
    JitterMonotone(low, low + 1, draw, ONE - 1);
    if draw <= LastFit(low) {
      JitterMonotone(low, low + 1, draw, LastFit(low));
    } else {
      JitterMonotone(low, low + 1, LastFit(low) + 1, draw);
    }
  }

  /** The exponent of the spacing around a whole number. */
  lemma {:induction false} WholeExponent(n: nat) returns (k: nat)
    requires 1 <= n
    ensures k >= 1 && Pow2(k - 1) <= n < Pow2(k)
    decreases n
  {
    if n == 1 {
      k := 1;
    } else {
      var h := WholeExponent(n / 2);
      k := h + 1;
    }
  }

  lemma {:induction false} Pow2Monotone(a: nat, b: nat)
    requires a <= b
    ensures Pow2(a) <= Pow2(b)
  {
    if a < b { Pow2Monotone(a, b - 1); }
  }

  lemma {:induction false} Pow2Sum(a: nat, b: nat)
    ensures Pow2(a + b) == Pow2(a) * Pow2(b)
    decreases a
  {
    if a > 0 {
      Pow2Sum(a - 1, b);
      Double(Pow2(a - 1), Pow2(b));
    }
  }

  lemma Double(a: int, b: int)
    ensures (2 * a) * b == 2 * (a * b)
  {
  }

  lemma OneIsPow2()
    ensures Pow2(53) == ONE
  {
    Powers();
    Pow2Sum(16, 16);
    Pow2Sum(32, 16);
    Pow2Sum(48, 5);
  }

  /** Whole numbers in range are doubles. */
  lemma WholeIsExact(n: nat)
    requires n <= 0x1_0000
    ensures Round(n * ONE) == n * ONE
  {
    if n > 0 {
      var k := WholeExponent(n);
      ExponentSmall(n, k);
      OneIsPow2();
      Pow2Sum(53 - k, k);
      MultipleIsExact(n, k, Pow2(k), Pow2(53 - k));
    }
  }

  lemma ExponentSmall(n: nat, k: nat)
    requires n <= 0x1_0000 && k >= 1 && Pow2(k - 1) <= n
    ensures k <= 17
  {
    Powers();
    if k > 17 { Pow2Monotone(17, k - 1); }
  }

  lemma MultipleIsExact(n: nat, k: nat, u: nat, g: nat)
    requires k >= 1 && u == Pow2(k) && g * u == ONE && Pow2(k - 1) <= n < u
    ensures Round(n * ONE) == n * ONE
  {
    Regroup(n, g, u, 0);
    RoundIs(n * ONE, k, u, n * g, n * ONE);
  }

  /** Whole numbers bound the rounding of what lies between them. */
  lemma RoundWithin(x: nat, n: nat)
    requires n < 0x1_0000 && n * ONE <= x < (n + 1) * ONE
    ensures n * ONE <= Round(x) <= (n + 1) * ONE
  {
    WholeIsExact(n);
    WholeIsExact(n + 1);
    RoundMonotone(n * ONE, x);
    RoundMonotone(x, (n + 1) * ONE);
  }

  /** The delay follows the draw: it is the exact value rounded down, or one millisecond more. */
  lemma DelayFollowsDraw(failures: nat, draw: nat)
    requires draw < ONE
    ensures var low := Shortest(failures);
      var exact := (low * ONE + draw * (low + 1)) / ONE;
      exact <= Delay(failures, draw) <= exact + 1
  {
    CapIsLongest(failures);
    var low := Shortest(failures);
    JitterFollows(low, draw);
  }

  lemma JitterFollows(low: nat, draw: nat)
    requires low <= 30000 && draw < ONE
    ensures var exact := (low * ONE + draw * (low + 1)) / ONE;
      exact <= Jittered(low, low + 1, draw) <= exact + 1
  {
    var product := draw * (low + 1);
    var n := product / ONE;
    assert product < (low + 1) * ONE;
    RoundWithin(product, n);
    var sum := low * ONE + Round(product);
    if sum < (low + n + 1) * ONE {
      RoundWithin(sum, low + n);
    } else {
      WholeIsExact(low + n + 1);
    }
    assert (low * ONE + product) / ONE == low + n;
  }

  /** Both ends are reached, so the interval cannot be narrowed. */
  lemma DelayBoundsReached(failures: nat)
    ensures Delay(failures, 0) == Shortest(failures)
    ensures Delay(failures, LastFit(Shortest(failures))) == Longest(failures)
  {
    CapIsLongest(failures);
    var e := IsRung(failures);
    LowestJitter(Shortest(failures), e);
    RungEnds(Shortest(failures), e);
  }

  /** The first failing input: the largest draw after no failure waits 1501 milliseconds. */
  lemma LargestDrawOvershoots()
    ensures Delay(0, ONE - 1) == 1501
  {
    DelayExactly(0, ONE - 1);
  }

  // ---------------------------------------------------------------- the counter

  datatype Streak = Streak(failures: nat, selection: Option<string>)

  datatype Event =
    | Schedule(selection: Option<string>, draw: nat)                  // nextSocketReconnectDelayMs
    | Closed(openFor: Option<int>, selection: Option<string>)         // noteClosedSocketDuration
    | Connect(selection: Option<string>, reconnect: bool)             // connectBroker
    | CloseBroker(selection: Option<string>)                          // closeBrokerSocket(true)

  function Sync(s: Streak, selection: Option<string>): Streak {
    if selection != s.selection then Streak(0, selection) else s
  }

  function Step(s: Streak, e: Event): Streak {
    match e
    case Schedule(selection, _) => var t := Sync(s, selection); t.(failures := t.failures + 1)
    case Closed(None, _) => s
    case Closed(Some(ms), selection) => if ms >= STABLE_SESSION_MS then Streak(0, selection) else s
    case Connect(selection, reconnect) =>
      if reconnect then Sync(s, selection) else Streak(0, selection)
    case CloseBroker(selection) => Streak(0, selection)
  }

  function Waited(s: Streak, e: Event): int {
    match e
    case Schedule(selection, draw) => Delay(Sync(s, selection).failures, draw)
    case _ => 0
  }

  function TotalWait(s: Streak, run: seq<Event>): int
    decreases |run|
  {
    if |run| == 0 then 0 else Waited(s, run[0]) + TotalWait(Step(s, run[0]), run[1..])
  }

  function Reconnects(run: seq<Event>): nat {
    if |run| == 0 then 0 else (if run[0].Schedule? then 1 else 0) + Reconnects(run[1..])
  }

  /** One selection, draws below 1, and no session that lasted a minute. */
  predicate LosingEvent(e: Event, selection: Option<string>) {
    && e.selection == selection
    && (e.Schedule? ==> e.draw < ONE)
    && (e.Closed? ==> e.openFor == None || e.openFor.value < STABLE_SESSION_MS)
    && (e.Connect? ==> e.reconnect)
    && !e.CloseBroker?
  }

  predicate LosingStreak(run: seq<Event>, selection: Option<string>) {
    forall i :: 0 <= i < |run| ==> LosingEvent(run[i], selection)
  }

  /** Shortest total of `n` delays that start after `from` failures. */
  function ShortestTotal(from: nat, n: nat): int
    decreases n
  {
    if n == 0 then 0 else Shortest(from) + ShortestTotal(from + 1, n - 1)
  }

  lemma {:induction false} StreakWaits(s: Streak, run: seq<Event>, selection: Option<string>)
    requires LosingStreak(run, selection)
    ensures TotalWait(s, run) >= ShortestTotal(Sync(s, selection).failures, Reconnects(run))
    decreases |run|
  {
    if |run| > 0 {
      var e := run[0];
      assert LosingEvent(e, selection);
      StreakWaits(Step(s, e), run[1..], selection);
      if e.Schedule? {
        DelayExactly(Sync(s, selection).failures, e.draw);
      }
    }
  }

  lemma {:induction false} ShortestMonotone(f: nat)
    ensures Shortest(f) <= Shortest(f + 1)
  {
    assert Pow2(f + 1) == 2 * Pow2(f);
  }

  lemma {:induction false} TotalMonotone(from: nat, n: nat)
    ensures ShortestTotal(from, n) <= ShortestTotal(from + 1, n)
    decreases n
  {
    if n > 0 {
      ShortestMonotone(from);
      TotalMonotone(from + 1, n - 1);
    }
  }

  lemma {:induction false} TotalFromZero(from: nat, n: nat)
    ensures ShortestTotal(0, n) <= ShortestTotal(from, n)
  {
    if from > 0 {
      TotalMonotone(from - 1, n);
      TotalFromZero(from - 1, n);
    }
  }

  lemma {:induction false} SaturatedTotal(from: nat, n: nat)
    requires from >= 6
    ensures ShortestTotal(from, n) == 30000 * n
    decreases n
  {
    if n > 0 {
      Pow2AtLeast64(from);
      SaturatedTotal(from + 1, n - 1);
    }
  }

  lemma ClosedFormTotal(n: nat)
    requires n >= 6
    ensures ShortestTotal(0, n) == 47250 + 30000 * (n - 6)
  {
    assert Pow2(1) == 2 && Pow2(2) == 4 && Pow2(3) == 8;
    assert Pow2(4) == 16 && Pow2(5) == 32;
    assert ShortestTotal(3, n - 3) == Shortest(3) + ShortestTotal(4, n - 4);
    assert ShortestTotal(4, n - 4) == Shortest(4) + ShortestTotal(5, n - 5);
    assert ShortestTotal(5, n - 5) == Shortest(5) + ShortestTotal(6, n - 6);
    assert ShortestTotal(0, n) == Shortest(0) + ShortestTotal(1, n - 1);
    assert ShortestTotal(1, n - 1) == Shortest(1) + ShortestTotal(2, n - 2);
    assert ShortestTotal(2, n - 2) == Shortest(2) + ShortestTotal(3, n - 3);
    SaturatedTotal(6, n - 6);
  }

  /** A losing streak of six or more reconnects on one selection, from any state of the counter,
      waits at least 47250 + 30000 (n - 6) milliseconds. */
  lemma LosingStreakWait(s: Streak, run: seq<Event>, selection: Option<string>)
    requires LosingStreak(run, selection) && Reconnects(run) >= 6
    ensures TotalWait(s, run) >= 47250 + 30000 * (Reconnects(run) - 6)
  {
    StreakWaits(s, run, selection);
    TotalFromZero(Sync(s, selection).failures, Reconnects(run));
    ClosedFormTotal(Reconnects(run));
  }

  /** A stable session, a chosen connect or a full close ends the streak: the next delay is the
      first rung again, on whichever selection it is asked for. */
  lemma StreakEnds(s: Streak, e: Event, selection: Option<string>, draw: nat)
    requires draw < ONE
    requires e.CloseBroker? || (e.Connect? && !e.reconnect)
          || (e.Closed? && e.openFor.Some? && e.openFor.value >= STABLE_SESSION_MS)
    ensures 750 <= Waited(Step(s, e), Schedule(selection, draw)) <= 1501
  {
    DelayExactly(0, draw);
    assert Sync(Step(s, e), selection).failures == 0;
  }

  /** The next delay on any selection is the first rung. */
  ghost predicate StartsOver(s: Streak) {
    forall selection, draw :: 0 <= draw < ONE ==> 750 <= Waited(s, Schedule(selection, draw)) <= 1501
  }

  lemma EventStartsOver(s: Streak, e: Event)
    requires e.CloseBroker? || (e.Connect? && !e.reconnect)
          || (e.Closed? && e.openFor.Some? && e.openFor.value >= STABLE_SESSION_MS)
    ensures StartsOver(Step(s, e))
  {
    forall selection, draw: nat | draw < ONE
      ensures 750 <= Waited(Step(s, e), Schedule(selection, draw)) <= 1501
    {
      StreakEnds(s, e, selection, draw);
    }
  }

  /** The module variables of the source and the functions that change them. */
  class Backoff {
    var socketReconnectFailures: nat
    var socketReconnectSelectionKey: Option<string>

    ghost function View(): Streak
      reads this
    {
      Streak(socketReconnectFailures, socketReconnectSelectionKey)
    }

    constructor ()
      ensures View() == Streak(0, None)
    {
      socketReconnectFailures := 0;
      socketReconnectSelectionKey := None;
    }

    method Reset(selectionKey: Option<string>)
      modifies this
      ensures View() == Streak(0, selectionKey)
    {
      socketReconnectFailures := 0;
      socketReconnectSelectionKey := selectionKey;
    }

    method SyncSelection(selectionKey: Option<string>)
      modifies this
      ensures View() == Sync(old(View()), selectionKey)
    {
      if selectionKey != socketReconnectSelectionKey {
        Reset(selectionKey);
      }
    }

    method NextDelayMs(selectionKey: Option<string>, draw: nat) returns (delay: int)
      requires draw < ONE
      modifies this
      ensures View() == Step(old(View()), Schedule(selectionKey, draw))
      ensures delay == Waited(old(View()), Schedule(selectionKey, draw))
      ensures var failures := socketReconnectFailures - 1;
        && Shortest(failures) <= delay <= Longest(failures) + 1
        && (delay > Longest(failures) <==> draw >= (if failures >= 6 then ONE - 1 else ONE - 2))
    {
      SyncSelection(selectionKey);
      DelayExactly(socketReconnectFailures, draw);
      delay := Delay(socketReconnectFailures, draw);
      socketReconnectFailures := socketReconnectFailures + 1;
    }

    /** A session of a minute or more starts the waiting over, and no shorter one changes anything. */
    method NoteClosedSocketDuration(openFor: Option<int>, selectionKey: Option<string>)
      modifies this
      ensures View() == Step(old(View()), Closed(openFor, selectionKey))
      ensures openFor.Some? && openFor.value >= STABLE_SESSION_MS ==> StartsOver(View())
      ensures openFor.None? || openFor.value < STABLE_SESSION_MS ==> View() == old(View())
    {
      if openFor.Some? && openFor.value >= STABLE_SESSION_MS {
        EventStartsOver(View(), Closed(openFor, selectionKey));
      }
      if openFor == None {
        return;
      }
      if openFor.value >= STABLE_SESSION_MS {
        Reset(selectionKey);
      }
    }

    /** A chosen connect starts the waiting over; a reconnect forgives its selection nothing. */
    method NoteConnect(selectionKey: Option<string>, reconnect: bool)
      modifies this
      ensures View() == Step(old(View()), Connect(selectionKey, reconnect))
      ensures !reconnect ==> StartsOver(View())
      ensures reconnect && selectionKey == old(socketReconnectSelectionKey) ==> View() == old(View())
    {
      if !reconnect { EventStartsOver(View(), Connect(selectionKey, reconnect)); }
      SyncSelection(selectionKey);
      if !reconnect {
        Reset(selectionKey);
      }
    }
  }
}
