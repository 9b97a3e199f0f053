/**
 The axis fitting of the dashboard charts (calculateScaleRange in perfdash/www/Chart.js), over exact reals.

 The step value starts at a power of ten and is doubled or halved until the number of steps fits.
 The order of magnitude that the program takes from a logarithm is a parameter here, with the property
 that determines it.
 */
module ScaleRange {
  import opened Common

  /** Math.round */
  function Round(x: real): int {
    (x + 0.5).Floor
  }

  predicate IsInteger(x: real) {
    x == x.Floor as real
  }

  /** A whole number of steps or units. */
  function Multiple(n: int, x: real): real {
    n as real * x
  }

  /** How many steps fit into a range, rounded. */
  function StepsIn(graphRange: real, stepValue: real): int
    requires stepValue != 0.0
  {
    Round(graphRange / stepValue)
  }

  function Pow10(k: int): (r: real)
    ensures r > 0.0
    ensures k >= 0 ==> IsInteger(r)
    decreases if k >= 0 then k else -k
  {
    if k == 0 then 1.0
    else if k > 0 then
      IntegerMultiple(Pow10(k - 1));
      10.0 * Pow10(k - 1)
    else Pow10(k + 1) / 10.0
  }

  lemma IntegerMultiple(x: real)
    requires IsInteger(x)
    ensures IsInteger(10.0 * x)
  {
    assert 10.0 * x == (10 * x.Floor) as real;
  }

  function Pow2(d: nat): (r: int)
    ensures r >= 1
  {
    if d == 0 then 1 else 2 * Pow2(d - 1)
  }

  // ----- The fitting loop -----

  /** `n0` divided by 2^d, rounded. */
  function Rounded(n0: int, d: nat): int {
    (2 * n0 + Pow2(d)) / (2 * Pow2(d))
  }

  lemma DivisionBounds(a: int, b: int)
    requires b > 0
    ensures a / b * b <= a < (a / b + 1) * b
  {
  }

  lemma RoundRatio(n0: int, p: int)
    requires p > 0
    ensures Round(n0 as real / p as real) == (2 * n0 + p) / (2 * p)
  {
    var x, unit := n0 as real / p as real, p as real;
    var q := (2 * n0 + p) / (2 * p);
    DivisionBounds(2 * n0 + p, 2 * p);
    assert q * (2 * p) <= 2 * n0 + p < (q + 1) * (2 * p);
    ProductOfInts(q, p);
    ProductOfInts(q + 1, p);
    ProductOfQuotient(n0 as real, unit);
    ProductOfSum(x, 0.5, unit);
    ProductOrder(q as real, x + 0.5, unit);
    ProductOrder((q + 1) as real, x + 0.5, unit);
    DoubledProduct(q, p);
    DoubledProduct(q + 1, p);
    hide Product;
    assert Product(x + 0.5, unit) == n0 as real + unit / 2.0;
    FloorIs(x + 0.5, q);
  }

  lemma ProductOfInts(n: int, p: int)
    ensures Product(n as real, p as real) == (n * p) as real
  {
  }

  lemma DoubledProduct(n: int, p: int)
    ensures n * (2 * p) == 2 * (n * p)
  {
  }

  lemma ProductOfQuotient(x: real, y: real)
    requires y != 0.0
    ensures Product(x / y, y) == x
  {
  }

  lemma ProductOfSum(x: real, y: real, z: real)
    ensures Product(x + y, z) == Product(x, z) + Product(y, z)
    ensures Product(0.5, z) == z / 2.0
  {
  }

  lemma ProductOrder(x: real, y: real, z: real)
    requires z > 0.0
    ensures Product(x, z) <= Product(y, z) <==> x <= y
  {
    CancelScale(x, y, z);
  }

  lemma FloorIs(x: real, n: int)
    requires n as real <= x < (n + 1) as real
    ensures x.Floor == n
  {
  }

  lemma QuotientUnique(x: real, d: real, y: real)
    requires d != 0.0 && y * d == x
    ensures x / d == y
  {
  }

  /** Doubling the step value once more keeps at least half of the steps, rounded down, and makes them fewer. */
  lemma DoublingShrinks(n0: int, p: int)
    requires p > 0 && (2 * n0 + p) / (2 * p) >= 2
    ensures
      var n, n' := (2 * n0 + p) / (2 * p), (2 * n0 + 2 * p) / (2 * (2 * p));
      n - 1 <= 2 * n' <= n + 1 && n' < n
  {
    var n, n' := (2 * n0 + p) / (2 * p), (2 * n0 + 2 * p) / (2 * (2 * p));
    DivisionBounds(2 * n0 + p, 2 * p);
    DivisionBounds(2 * n0 + 2 * p, 4 * p);
    assert n' * (4 * p) <= 2 * n0 + 2 * p < (n' + 1) * (4 * p);
    assert n * (2 * p) <= 2 * n0 + p < (n + 1) * (2 * p);
    CancelFactor(2 * n' - (n + 1), 2 * p, p);
    CancelFactor(n - 2 * n' - 2, 2 * p, 0 - p);
  }

  /** How often the step value is doubled until at most `maxSteps` steps are left. */
  function DoublingsFrom(n0: int, maxSteps: int, d: nat): (r: nat)
    requires maxSteps > 2
    ensures d <= r && Rounded(n0, r) <= maxSteps
    ensures forall e :: d <= e < r ==> Rounded(n0, e) > maxSteps
    decreases Rounded(n0, d)
  {
    if Rounded(n0, d) <= maxSteps then d
    else
      RoundedShrinks(n0, d);
      DoublingsFrom(n0, maxSteps, d + 1)
  }

  function Doublings(n0: int, maxSteps: int): nat
    requires maxSteps > 2
  {
    DoublingsFrom(n0, maxSteps, 0)
  }

  /** That is the least number of doublings that leaves at most `maxSteps` steps. */
  lemma DoublingsAreLeast(n0: int, maxSteps: int, d: nat)
    requires maxSteps > 2
    ensures d == Doublings(n0, maxSteps) <==>
      Rounded(n0, d) <= maxSteps && forall e :: 0 <= e < d ==> Rounded(n0, e) > maxSteps
  {
    hide Rounded;
    var least := Doublings(n0, maxSteps);
    assert Rounded(n0, least) <= maxSteps;
  }

  lemma RoundedShrinks(n0: int, d: nat)
    requires Rounded(n0, d) >= 2
    ensures 0 <= Rounded(n0, d + 1) < Rounded(n0, d)
  {
    Pow2Next(d);
    hide Pow2;
    DoublingShrinks(n0, Pow2(d));
  }

  /** From z * m <= r, with r less than m, z is at most zero. */
  lemma CancelFactor(z: int, m: int, r: int)
    requires m > 0 && z * m <= r < m
    ensures z <= 0
  {
    if z >= 1 {
      ScaleUp(z, m);
      assert false;
    }
  }

  lemma ScaleUp(z: int, m: int)
    requires z >= 1 && m > 0
    ensures z * m >= m
  {
  }

  /** The range is `n0` units. */
  ghost predicate UnitsOf(graphRange: real, n0: int, u: real) {
    graphRange == Multiple(n0, u)
  }

  /** The step value is `p` units and the steps are rounded. */
  ghost predicate Doubled(u: real, p: int, n0: int, stepValue: real, steps: int)
    requires p > 0
  {
    stepValue == u * p as real && steps == (2 * n0 + p) / (2 * p)
  }

  /** The step value is a p-th of a unit and the steps fill the range exactly. */
  ghost predicate Halved(u: real, p: int, n0: int, stepValue: real, steps: int) {
    stepValue * p as real == u && steps == n0 * p
  }

  /** The loop of calculateScaleRange for a range of `n0` units.  Ghost results count its iterations. */
  method FitSteps(graphRange: real, order: int, ghost n0: int, maxSteps: int, integersOnly: bool)
    returns (numberOfSteps: int, stepValue: real, ghost doublings: nat, ghost halvings: nat)
    requires UnitsOf(graphRange, n0, Pow10(order))
    requires maxSteps > 2
    requires n0 > 0 || (integersOnly && order >= 0)
    ensures doublings == 0 || halvings == 0
    ensures doublings > 0 ==> Doubled(Pow10(order), Pow2(doublings), n0, stepValue, numberOfSteps)
    ensures doublings == 0 ==> Halved(Pow10(order), Pow2(halvings), n0, stepValue, numberOfSteps)
    ensures numberOfSteps <= maxSteps
    ensures 2 * numberOfSteps >= maxSteps || (integersOnly && order >= 0 && !IsInteger(stepValue / 2.0))
    ensures doublings == Doublings(n0, maxSteps)
    ensures stepValue > 0.0 && (integersOnly && order >= 0 ==> IsInteger(stepValue))
  {
    hide Rounded, Pow10, StepsIn, Halved, Doubled, UnitsOf, Multiple, IsInteger, DoublingsFrom;
    var skipFitting := false;
    stepValue := Pow10(order);
    doublings, halvings := 0, 0;
    numberOfSteps := StepsIn(graphRange, stepValue);
    Untouched(graphRange, Pow10(order), n0);
    assert Pow2(0) == 1;
    PowerIsWhole(order);
    hide Pow2;
    while (numberOfSteps > maxSteps || numberOfSteps * 2 < maxSteps) && !skipFitting
      invariant !skipFitting && stepValue > 0.0
      invariant doublings == 0 || halvings == 0
      invariant halvings == 0 ==> Doubled(Pow10(order), Pow2(doublings), n0, stepValue, numberOfSteps)
      invariant doublings == 0 ==> Halved(Pow10(order), Pow2(halvings), n0, stepValue, numberOfSteps)
      invariant halvings > 0 ==> numberOfSteps <= maxSteps
      invariant doublings > 0 ==> 2 * numberOfSteps >= maxSteps
      invariant halvings == 0 ==> Doublings(n0, maxSteps) == DoublingsFrom(n0, maxSteps, doublings)
      invariant halvings > 0 ==> Doublings(n0, maxSteps) == 0
      invariant integersOnly && order >= 0 ==> IsInteger(stepValue)
      decreases if numberOfSteps > maxSteps then 1 else 0,
                if numberOfSteps > maxSteps then numberOfSteps
                else if integersOnly && order >= 0 then stepValue.Floor
                else maxSteps - numberOfSteps
    {
      if numberOfSteps > maxSteps {
        DoubledIsRounded(Pow10(order), doublings, n0, stepValue, numberOfSteps);
        NextDoubling(n0, maxSteps, doublings);
        DoublingStep(graphRange, Pow10(order), Pow2(doublings), n0, stepValue, numberOfSteps);
        TwiceIsInteger(stepValue);
        stepValue := stepValue * 2.0;
        numberOfSteps := StepsIn(graphRange, stepValue);
        doublings := doublings + 1;
        // Math.round yields whole numbers, so fitting is never cancelled here.
        WholeNumber(numberOfSteps);
        if !IsInteger(numberOfSteps as real) {
          skipFitting := true;
        }
      } else {
        if halvings == 0 {
          DoubledIsRounded(Pow10(order), doublings, n0, stepValue, numberOfSteps);
          NextDoubling(n0, maxSteps, doublings);
        }
        HalvingStep(graphRange, Pow10(order), Pow2(halvings), n0, stepValue, numberOfSteps);
        Pow2Next(halvings);
        if integersOnly && order >= 0 {
          if IsInteger(stepValue / 2.0) {
            HalfIsSmaller(stepValue);
            stepValue := stepValue / 2.0;
            numberOfSteps := StepsIn(graphRange, stepValue);
            halvings := halvings + 1;
          } else {
            break;
          }
        } else {
          stepValue := stepValue / 2.0;
          numberOfSteps := StepsIn(graphRange, stepValue);
          halvings := halvings + 1;
        }
      }
    }
    if halvings == 0 {
      DoubledIsRounded(Pow10(order), doublings, n0, stepValue, numberOfSteps);
      NextDoubling(n0, maxSteps, doublings);
    }
  }

  lemma NextDoubling(n0: int, maxSteps: int, d: nat)
    requires maxSteps > 2
    ensures DoublingsFrom(n0, maxSteps, d) ==
            if Rounded(n0, d) <= maxSteps then d else DoublingsFrom(n0, maxSteps, d + 1)
  {
  }

  lemma Untouched(graphRange: real, u: real, n0: int)
    requires u > 0.0 && UnitsOf(graphRange, n0, u)
    ensures StepsIn(graphRange, u) == n0
    ensures Doubled(u, 1, n0, u, n0) && Halved(u, 1, n0, u, n0)
  {
    QuotientUnique(graphRange, u, n0 as real);
  }

  lemma PowerIsWhole(order: int)
    ensures order >= 0 ==> IsInteger(Pow10(order))
  {
  }

  lemma Pow2Next(d: nat)
    ensures Pow2(d + 1) == 2 * Pow2(d)
  {
  }

  lemma DoubledIsRounded(u: real, d: nat, n0: int, stepValue: real, steps: int)
    requires Doubled(u, Pow2(d), n0, stepValue, steps)
    ensures steps == Rounded(n0, d)
    ensures Pow2(d + 1) == 2 * Pow2(d)
  {
  }

  lemma WholeNumber(n: int)
    ensures IsInteger(n as real)
  {
  }

  lemma TwiceIsInteger(x: real)
    ensures IsInteger(x) ==> IsInteger(x * 2.0)
  {
    if IsInteger(x) {
      assert x * 2.0 == (2 * x.Floor) as real;
    }
  }

  lemma HalfIsSmaller(x: real)
    requires x > 0.0 && IsInteger(x) && IsInteger(x / 2.0)
    ensures 0 <= (x / 2.0).Floor < x.Floor
  {
  }

  lemma DoublingStep(graphRange: real, u: real, p: int, n0: int, stepValue: real, steps: int)
    requires u > 0.0 && p > 0 && UnitsOf(graphRange, n0, u)
    requires Doubled(u, p, n0, stepValue, steps) && steps >= 2 && stepValue > 0.0
    ensures
      var steps' := StepsIn(graphRange, stepValue * 2.0);
      && Doubled(u, 2 * p, n0, stepValue * 2.0, steps')
      && steps - 1 <= 2 * steps' <= steps + 1 && steps' < steps
  {
    DoublingShrinks(n0, p);
    StepRatio(graphRange, u, n0, stepValue, p);
  }

  lemma StepRatio(graphRange: real, u: real, n0: int, stepValue: real, p: int)
    requires u > 0.0 && p > 0 && UnitsOf(graphRange, n0, u) && stepValue == u * p as real
    ensures stepValue * 2.0 == u * (2 * p) as real
    ensures stepValue * 2.0 > 0.0 && StepsIn(graphRange, stepValue * 2.0) == (2 * n0 + 2 * p) / (2 * (2 * p))
  {
    var q := (2 * p) as real;
    assert stepValue * 2.0 == u * q;
    var x := n0 as real / q;
    assert x * q == n0 as real;
    Reassociate(x, u, q);
    Positive(u, q);
    QuotientUnique(graphRange, u * q, x);
    RoundRatio(n0, 2 * p);
  }

  lemma Reassociate(x: real, y: real, z: real)
    ensures x * (y * z) == (x * z) * y
  {
  }

  lemma Positive(x: real, y: real)
    requires x > 0.0 && y > 0.0
    ensures x * y > 0.0
  {
  }

  lemma HalvingStep(graphRange: real, u: real, p: int, n0: int, stepValue: real, steps: int)
    requires p > 0 && UnitsOf(graphRange, n0, u)
    requires Halved(u, p, n0, stepValue, steps) && stepValue > 0.0
    ensures Halved(u, 2 * p, n0, stepValue / 2.0, StepsIn(graphRange, stepValue / 2.0))
    ensures StepsIn(graphRange, stepValue / 2.0) == 2 * steps
    ensures n0 > 0 ==> steps > 0
  {
    Reassociate(n0 as real, stepValue, p as real);
    assert n0 as real * p as real == steps as real;
    WholeRatio(graphRange, stepValue / 2.0, 2 * steps);
    if n0 > 0 {
      ScaleUp(n0, p);
    }
  }

  lemma WholeRatio(x: real, d: real, n: int)
    requires d > 0.0 && n as real * d == x
    ensures Round(x / d) == n
  {
    QuotientUnique(x, d, n as real);
  }

  // ----- The whole function -----

  datatype Scale = Scale(steps: int, stepValue: real, min: real, max: real)

  function MaxOf(values: seq<real>): (r: real)
    requires values != []
    ensures r in values && forall i :: 0 <= i < |values| ==> values[i] <= r
  {
    if |values| == 1 then values[0]
    else var m := MaxOf(values[1..]); if values[0] >= m then values[0] else m
  }

  function MinOf(values: seq<real>): (r: real)
    requires values != []
    ensures r in values && forall i :: 0 <= i < |values| ==> r <= values[i]
  {
    if |values| == 1 then values[0]
    else var m := MinOf(values[1..]); if values[0] <= m then values[0] else m
  }

  /** The data range, widened when all values are the same. */
  function Spread(values: seq<real>, startFromZero: bool): (r: (real, real))
    requires values != []
    ensures r.0 < r.1 && r.0 <= MinOf(values) && MaxOf(values) <= r.1
    ensures MinOf(values) != MaxOf(values) ==> r == (MinOf(values), MaxOf(values))
  {
    var lo, hi := MinOf(values), MaxOf(values);
    if lo == hi then
      if lo >= 0.5 && !startFromZero then (lo - 0.5, hi + 0.5) else (lo, hi + 0.5 + 0.5)
    else (lo, hi)
  }

  /** The order of magnitude of the range: floor(log10(hi - lo)). */
  ghost predicate IsOrder(range: real, order: int) {
    Pow10(order) <= range < Pow10(order + 1)
  }

  function UnitsAbove(hi: real, order: int): int {
    Ceiling(hi / Pow10(order))
  }

  function UnitsBelow(lo: real, order: int, startFromZero: bool): int {
    if startFromZero then 0 else (lo / Pow10(order)).Floor
  }

  /** The axis covers a positive number of units, except when it is told to start from zero and no value is positive. */
  lemma RangeIsPositive(values: seq<real>, order: int, startFromZero: bool)
    requires values != []
    ensures
      var (lo, hi) := Spread(values, startFromZero);
      UnitsAbove(hi, order) > UnitsBelow(lo, order, startFromZero) <==> !startFromZero || hi > 0.0
  {
    var (lo, hi) := Spread(values, startFromZero);
    UnitsOrdered(lo, hi, Pow10(order));
  }

  lemma UnitsOrdered(lo: real, hi: real, u: real)
    requires lo < hi && u > 0.0
    ensures Ceiling(hi / u) > (lo / u).Floor
    ensures Ceiling(hi / u) > 0 <==> hi > 0.0
  {
    var x, y := lo / u, hi / u;
    assert x * u == lo && y * u == hi;
    CancelScale(x, y, u);
    CancelScale(0.0, y, u);
  }

  /** Data without negative values always have a positive top. */
  lemma NonNegativeDataTerminate(values: seq<real>)
    requires values != [] && forall i :: 0 <= i < |values| ==> values[i] >= 0.0
    ensures TopIsPositive(values)
  {
  }

  /** How many steps the loop counts after `h` halvings. */
  function StepsAfter(graphRange: real, order: int, h: nat): int {
    StepsIn(graphRange, Pow10(order) / Pow2(h) as real)
  }

  /** The guard of the loop holds after `h` halvings, and the step value is halved once more. */
  predicate KeepsHalving(graphRange: real, order: int, maxSteps: int, h: nat) {
    var steps := StepsAfter(graphRange, order, h);
    steps <= maxSteps && steps * 2 < maxSteps
  }

  lemma StepsAreMultiplied(n0: int, order: int, h: nat)
    ensures StepsAfter(Multiple(n0, Pow10(order)), order, h) == n0 * Pow2(h)
  {
    var u, p := Pow10(order), Pow2(h) as real;
    hide Pow10, Pow2;
    var step := u / p;
    assert step * p == u;
    assert step > 0.0 by { PositiveQuotient(u, p); }
    Reassociate(n0 as real, step, p);
    assert (n0 * Pow2(h)) as real == n0 as real * p;
    WholeRatio(Multiple(n0, u), step, n0 * Pow2(h));
  }

  lemma PositiveQuotient(x: real, y: real)
    requires x > 0.0 && y > 0.0
    ensures x / y > 0.0
  {
    var q := x / y;
    assert q * y == x;
    CancelScale(0.0, q, y);
  }

  /** Halving goes on for ever exactly for a range of no unit, or a negative one. */
  lemma HalvingEndsExactly(n0: int, order: int, maxSteps: int)
    requires maxSteps > 2
    ensures (forall h: nat :: KeepsHalving(Multiple(n0, Pow10(order)), order, maxSteps, h)) <==> n0 <= 0
  {
    if n0 > 0 {
      StepsAreMultiplied(n0, order, maxSteps);
      Pow2Grows(maxSteps);
      AtLeast(n0, Pow2(maxSteps));
      assert !KeepsHalving(Multiple(n0, Pow10(order)), order, maxSteps, maxSteps);
    } else {
      forall h: nat ensures KeepsHalving(Multiple(n0, Pow10(order)), order, maxSteps, h) {
        StepsAreMultiplied(n0, order, h);
        AtMostZero(n0, Pow2(h));
      }
    }
  }

  lemma AtLeast(a: int, b: int)
    requires a > 0 && b > 0
    ensures a * b >= b
  {
  }

  lemma AtMostZero(a: int, b: int)
    requires a <= 0 && b > 0
    ensures a * b <= 0
  {
  }

  /** The largest value is positive, or all values are the same one above -1: those get an axis that ends one higher. */
  predicate TopIsPositive(values: seq<real>)
    requires values != []
  {
    MaxOf(values) > 0.0 || (MinOf(values) == MaxOf(values) && MaxOf(values) > -1.0)
  }

  /**
   Unless whole numbers stop it, the fitting loop halves for ever exactly when the axis starts from zero and its
   top is not positive.  CalculateScaleRange requires no more than that this is not so.
   */
  lemma FittingNeverEndsExactly(values: seq<real>, order: int, startFromZero: bool, maxSteps: int)
    requires values != [] && maxSteps > 2
    ensures
      var (lo, hi) := Spread(values, startFromZero);
      var n0 := UnitsAbove(hi, order) - UnitsBelow(lo, order, startFromZero);
      (forall h: nat :: KeepsHalving(Multiple(n0, Pow10(order)), order, maxSteps, h)) <==>
      startFromZero && !TopIsPositive(values)
  {
    RangeIsPositive(values, order, startFromZero);
    var (lo, hi) := Spread(values, startFromZero);
    HalvingEndsExactly(UnitsAbove(hi, order) - UnitsBelow(lo, order, startFromZero), order, maxSteps);
    hide KeepsHalving, MaxOf, MinOf, UnitsAbove, UnitsBelow;
  }

  lemma {:induction false} Pow2Grows(d: nat)
    ensures Pow2(d) > d
  {
    if d > 0 {
      Pow2Grows(d - 1);
    }
  }

  /** How many steps there is room for. */
  function MaxSteps(drawingSize: real, textSize: real): int
    requires textSize > 0.0
  {
    (drawingSize / (textSize * 1.5)).Floor
  }

  /** As many as fit into the drawing, each one and a half times as high as the text. */
  lemma RoomForSteps(drawingSize: real, textSize: real, steps: int)
    requires textSize > 0.0
    ensures steps == MaxSteps(drawingSize, textSize) <==>
            Multiple(3 * steps, textSize) <= 2.0 * drawingSize < Multiple(3 * (steps + 1), textSize)
  {
    var height := textSize * 1.5;
    Steps(steps, textSize);
    Steps(steps + 1, textSize);
    FloorExactly(drawingSize, height, steps);
    hide Multiple;
  }

  lemma FloorExactly(x: real, unit: real, n: int)
    requires unit > 0.0
    ensures n == (x / unit).Floor <==> Multiple(n, unit) <= x < Multiple(n + 1, unit)
  {
    var q := x / unit;
    ProductOfQuotient(x, unit);
    ProductOrder(n as real, q, unit);
    ProductOrder((n + 1) as real, q, unit);
    MultipleIsProduct(n, unit);
    MultipleIsProduct(n + 1, unit);
    hide Product, Multiple;
    assert n == q.Floor <==> n as real <= q < (n + 1) as real;
  }

  lemma MultipleIsProduct(n: int, x: real)
    ensures Multiple(n, x) == Product(n as real, x)
  {
  }

  lemma Steps(n: int, textSize: real)
    ensures Multiple(3 * n, textSize) == 2.0 * Multiple(n, textSize * 1.5)
  {
  }

  /** The steps miss the range by at most half a step, and reach its end unless `n0` units
      were rounded down to a multiple of `p`. */
  ghost predicate Misses(length: real, graphRange: real, stepValue: real, n0: int, p: int)
    requires p > 0
  {
    && -(stepValue / 2.0) <= length - graphRange <= stepValue / 2.0
    && (length >= graphRange <==> n0 % p == 0 || 2 * (n0 % p) >= p)
  }

  /** What the fitted scale promises for an axis of `n0` units from `below` units on. */
  ghost predicate GoodScale(scale: Scale, maxSteps: int, order: int, below: int, n0: int, integersOnly: bool) {
    var graphRange := Multiple(n0, Pow10(order));
    var length := Multiple(scale.steps, scale.stepValue);
    && scale.min == Multiple(below, Pow10(order)) && scale.max == scale.min + length
    && if maxSteps <= 2 then scale.steps == 2 && length == graphRange
       else
         && scale.steps <= maxSteps
         && (2 * scale.steps >= maxSteps || (integersOnly && order >= 0 && !IsInteger(scale.stepValue / 2.0)))
         && -(scale.stepValue / 2.0) <= length - graphRange <= scale.stepValue / 2.0
  }

  /** By how many units the fitted steps end beyond a range of `n0` units; negative when they end short of it. */
  function Overshoot(n0: int, maxSteps: int): int {
    if maxSteps <= 2 then 0
    else
      var d := Doublings(n0, maxSteps);
      Rounded(n0, d) * Pow2(d) - n0
  }

  /** Where the axis ends, in units. */
  function EndOfAxis(values: seq<real>, order: int, startFromZero: bool, maxSteps: int): int
    requires values != []
  {
    var (lo, hi) := Spread(values, startFromZero);
    var above := UnitsAbove(hi, order);
    above + Overshoot(above - UnitsBelow(lo, order, startFromZero), maxSteps)
  }

  /** The step value was only doubled, and as often as necessary, or only halved. */
  ghost predicate OneDirection(scale: Scale, maxSteps: int, order: int, n0: int) {
    maxSteps > 2 ==>
      var d := Doublings(n0, maxSteps);
      if d > 0 then Doubled(Pow10(order), Pow2(d), n0, scale.stepValue, scale.steps)
      else exists h: nat :: Halved(Pow10(order), Pow2(h), n0, scale.stepValue, scale.steps)
  }

  method CalculateScaleRange(
      values: seq<real>, drawingSize: real, textSize: real, startFromZero: bool, integersOnly: bool, order: int)
    returns (scale: Scale)
    requires values != [] && textSize > 0.0
    requires IsOrder(Spread(values, startFromZero).1 - Spread(values, startFromZero).0, order)
    requires
      || !startFromZero || TopIsPositive(values)
      || (integersOnly && order >= 0)
      || MaxSteps(drawingSize, textSize) <= 2
    ensures
      var (lo, hi) := Spread(values, startFromZero);
      var above, below := UnitsAbove(hi, order), UnitsBelow(lo, order, startFromZero);
      && GoodScale(scale, MaxSteps(drawingSize, textSize), order, below, above - below, integersOnly)
      // the range that is fitted covers the data
      && hi <= Multiple(above, Pow10(order)) < hi + Pow10(order)
      && (if startFromZero then scale.min == 0.0 else scale.min <= lo < scale.min + Pow10(order))
    ensures integersOnly && order >= 0 && MaxSteps(drawingSize, textSize) > 2 ==> IsInteger(scale.stepValue)
    ensures
      var (lo, hi) := Spread(values, startFromZero);
      var n0 := UnitsAbove(hi, order) - UnitsBelow(lo, order, startFromZero);
      var maxSteps := MaxSteps(drawingSize, textSize);
      && OneDirection(scale, maxSteps, order, n0)
      && scale.max == Multiple(EndOfAxis(values, order, startFromZero, maxSteps), Pow10(order))
  {
    hide *;
    var minSteps := 2;
    var maxSteps := MaxSteps(drawingSize, textSize);
    var skipFitting := minSteps >= maxSteps;
    var maxValue, minValue := MaxOf(values), MinOf(values);
    SpreadWidens(values, startFromZero);
    if maxValue == minValue {
      maxValue := maxValue + 0.5;
      if minValue >= 0.5 && !startFromZero {
        minValue := minValue - 0.5;
      } else {
        maxValue := maxValue + 0.5;
      }
    }
    var unit := Pow10(order);
    var above := UnitsAbove(maxValue, order);
    var below := UnitsBelow(minValue, order, startFromZero);
    ghost var n0 := above - below;
    SpreadIs(values, order, startFromZero, maxSteps, minValue, maxValue);
    UnitsCover(maxValue, minValue, order, startFromZero);
    Distribute(above, below, unit);
    UnitsAreEqual(n0, order);
    var graphMax, graphMin := Multiple(above, unit), Multiple(below, unit);
    var graphRange := graphMax - graphMin;
    var numberOfSteps, stepValue;
    if skipFitting {
      numberOfSteps := minSteps;
      stepValue := graphRange / 2.0;
      scale := Scale(numberOfSteps, stepValue, graphMin, graphMin + Multiple(numberOfSteps, stepValue));
      SkippedIsGood(scale, maxSteps, order, below, n0, integersOnly);
    } else {
      ghost var doublings, halvings;
      numberOfSteps, stepValue, doublings, halvings := FitSteps(graphRange, order, n0, maxSteps, integersOnly);
      scale := Scale(numberOfSteps, stepValue, graphMin, graphMin + Multiple(numberOfSteps, stepValue));
      FittedIsGood(scale, maxSteps, order, below, n0, integersOnly, doublings, halvings);
    }
    EndsAt(scale, maxSteps, order, below, n0, integersOnly);
  }

  lemma SpreadWidens(values: seq<real>, startFromZero: bool)
    requires values != []
    ensures
      var lo, hi := MinOf(values), MaxOf(values);
      Spread(values, startFromZero) ==
        if hi != lo then (lo, hi)
        else if lo >= 0.5 && !startFromZero then (lo - 0.5, hi + 0.5)
        else (lo, hi + 0.5 + 0.5)
  {
  }

  lemma SpreadIs(values: seq<real>, order: int, startFromZero: bool, maxSteps: int, lo: real, hi: real)
    requires values != [] && Spread(values, startFromZero) == (lo, hi)
    ensures
      var above, below := UnitsAbove(hi, order), UnitsBelow(lo, order, startFromZero);
      && EndOfAxis(values, order, startFromZero, maxSteps) == above + Overshoot(above - below, maxSteps)
      && (!startFromZero || TopIsPositive(values) ==> above - below > 0)
  {
    hide UnitsAbove, UnitsBelow, Overshoot, Ceiling, Pow10;
    RangeIsPositive(values, order, startFromZero);
  }

  lemma UnitsCover(hi: real, lo: real, order: int, startFromZero: bool)
    ensures hi <= Multiple(UnitsAbove(hi, order), Pow10(order)) < hi + Pow10(order)
    ensures
      var min := Multiple(UnitsBelow(lo, order, startFromZero), Pow10(order));
      if startFromZero then min == 0.0 else min <= lo < min + Pow10(order)
  {
    var u := Pow10(order);
    Covers(hi, lo, u);
    Distribute(UnitsAbove(hi, order), 1, u);
    Distribute((lo / u).Floor + 1, 1, u);
    NoUnits(u);
    hide Multiple, Pow10;
  }

  lemma NoUnits(u: real)
    ensures Multiple(0, u) == 0.0 && Multiple(1, u) == u
  {
  }

  lemma UnitsAreEqual(n0: int, order: int)
    ensures UnitsOf(Multiple(n0, Pow10(order)), n0, Pow10(order))
  {
  }

  lemma SkippedIsGood(scale: Scale, maxSteps: int, order: int, below: int, n0: int, integersOnly: bool)
    requires maxSteps <= 2 && scale.steps == 2
    requires scale.stepValue == Multiple(n0, Pow10(order)) / 2.0
    requires scale.min == Multiple(below, Pow10(order)) && scale.max == scale.min + Multiple(2, scale.stepValue)
    ensures GoodScale(scale, maxSteps, order, below, n0, integersOnly)
    ensures OneDirection(scale, maxSteps, order, n0)
  {
  }

  lemma FittedIsGood(
      scale: Scale, maxSteps: int, order: int, below: int, n0: int, integersOnly: bool, doublings: nat, halvings: nat)
    requires maxSteps > 2 && scale.steps <= maxSteps
    requires scale.min == Multiple(below, Pow10(order))
    requires scale.max == scale.min + Multiple(scale.steps, scale.stepValue)
    requires doublings == Doublings(n0, maxSteps)
    requires doublings > 0 ==> Doubled(Pow10(order), Pow2(doublings), n0, scale.stepValue, scale.steps)
    requires doublings == 0 ==> Halved(Pow10(order), Pow2(halvings), n0, scale.stepValue, scale.steps)
    requires 2 * scale.steps >= maxSteps || (integersOnly && order >= 0 && !IsInteger(scale.stepValue / 2.0))
    requires scale.stepValue > 0.0
    ensures GoodScale(scale, maxSteps, order, below, n0, integersOnly)
    ensures OneDirection(scale, maxSteps, order, n0)
  {
    hide Pow10, Pow2, IsInteger, Doubled, Halved, Multiple;
    if doublings > 0 {
      RoundedFit(Pow10(order), n0, Pow2(doublings), scale.steps, scale.stepValue);
    } else {
      ExactFit(Pow10(order), n0, Pow2(halvings), scale.steps, scale.stepValue);
    }
  }

  lemma EndsAt(scale: Scale, maxSteps: int, order: int, below: int, n0: int, integersOnly: bool)
    requires GoodScale(scale, maxSteps, order, below, n0, integersOnly) && OneDirection(scale, maxSteps, order, n0)
    ensures scale.max == Multiple(below + n0 + Overshoot(n0, maxSteps), Pow10(order))
  {
    var u := Pow10(order);
    Distribute(below + n0, below, u);
    assert Pow2(0) == 1;
    hide Pow10, Pow2, IsInteger, Doubled, Halved, Multiple, Doublings;
    if maxSteps > 2 {
      var d := Doublings(n0, maxSteps);
      if d > 0 {
        DoubledEnd(u, d, n0, scale.steps, scale.stepValue, below);
      } else {
        var h: nat :| Halved(u, Pow2(h), n0, scale.stepValue, scale.steps);
        HalvedLength(u, n0, Pow2(h), scale.steps, scale.stepValue);
      }
    }
  }

  lemma DoubledEnd(u: real, d: nat, n0: int, steps: int, stepValue: real, below: int)
    requires Doubled(u, Pow2(d), n0, stepValue, steps)
    ensures Multiple(below, u) + Multiple(steps, stepValue) == Multiple(below + Rounded(n0, d) * Pow2(d), u)
  {
    var reached := steps * Pow2(d);
    MissInUnits(u, n0, Pow2(d), steps, stepValue);
    Distribute(reached, n0, u);
    Distribute(below + reached, below, u);
    hide Multiple;
  }

  /** A number of units reaches a value exactly when it reaches the next whole unit above it. */
  lemma ReachesInUnits(units: int, x: real, order: int)
    ensures Multiple(units, Pow10(order)) >= x <==> units >= UnitsAbove(x, order)
  {
    var u := Pow10(order);
    Covers(x, x, u);
    UnitOrder(units, UnitsAbove(x, order), u);
    UnitOrder(units, UnitsAbove(x, order) - 1, u);
    hide Multiple, Pow10;
  }

  /** The axis reaches the largest value. */
  predicate ReachesData(values: seq<real>, order: int, startFromZero: bool, maxSteps: int)
    requires values != []
  {
    EndOfAxis(values, order, startFromZero, maxSteps) >= UnitsAbove(MaxOf(values), order)
  }

  /** The fitted steps end short of their range exactly when the units are rounded down to a multiple of the step. */
  lemma ShortExactly(n0: int, maxSteps: int)
    requires maxSteps > 2
    ensures
      var p := Pow2(Doublings(n0, maxSteps));
      Overshoot(n0, maxSteps) < 0 <==> n0 % p != 0 && 2 * (n0 % p) < p
  {
    RoundedMisses(n0, Pow2(Doublings(n0, maxSteps)));
    hide Doublings;
  }

  /**
   The axis ends, as `CalculateScaleRange` ensures, after `EndOfAxis` units. That is
   below the largest value exactly when the fitted steps end short of their range by more than the
   range was widened: not at all for different values, and by less than a unit or by one for equal ones.
   */
  lemma CutOffExactly(values: seq<real>, order: int, startFromZero: bool, maxSteps: int)
    requires values != []
    ensures Multiple(EndOfAxis(values, order, startFromZero, maxSteps), Pow10(order)) < MaxOf(values) <==>
      !ReachesData(values, order, startFromZero, maxSteps)
    ensures
      var (lo, hi) := Spread(values, startFromZero);
      var n0 := UnitsAbove(hi, order) - UnitsBelow(lo, order, startFromZero);
      && (MinOf(values) != MaxOf(values) ==>
          (ReachesData(values, order, startFromZero, maxSteps) <==> Overshoot(n0, maxSteps) >= 0))
      && (MinOf(values) == MaxOf(values) && order == 0 && (startFromZero || MaxOf(values) < 0.5) ==>
          (ReachesData(values, order, startFromZero, maxSteps) <==> Overshoot(n0, maxSteps) >= -1))
      && (MinOf(values) == MaxOf(values) && order == 0 && !startFromZero && MaxOf(values) >= 0.5 ==>
          (ReachesData(values, order, startFromZero, maxSteps) <==>
           Overshoot(n0, maxSteps) >= Ceiling(MaxOf(values)) - Ceiling(MaxOf(values) + 0.5)))
  {
    hide Multiple, Overshoot, MaxOf, MinOf, UnitsAbove, UnitsBelow, Ceiling, Pow10, Spread;
    ReachesInUnits(EndOfAxis(values, order, startFromZero, maxSteps), MaxOf(values), order);
    SpreadWidens(values, startFromZero);
    if order == 0 {
      var m := MaxOf(values);
      WholeUnits(m);
      WholeUnits(m + 0.5);
      WholeUnits(m + 0.5 + 0.5);
      CeilingOfNext(m);
    }
  }

  /** Equal values are widened to a range of one, whose order of magnitude is zero: so those cases are all of them. */
  lemma OrderOfEqualValues(values: seq<real>, order: int, startFromZero: bool)
    requires values != [] && MinOf(values) == MaxOf(values)
    ensures
      var (lo, hi) := Spread(values, startFromZero);
      IsOrder(hi - lo, order) <==> order == 0
  {
    hide MinOf, MaxOf;
    assert Pow10(0) == 1.0 && Pow10(1) == 10.0 * Pow10(0);
    if order > 0 {
      Pow10Grows(order);
    } else if order < 0 {
      Pow10Falls(order + 1);
    }
  }

  lemma {:induction false} Pow10Grows(k: nat)
    ensures Pow10(k) >= 1.0 && (k > 0 ==> Pow10(k) > 1.0)
  {
    if k > 0 {
      Pow10Grows(k - 1);
    }
  }

  lemma {:induction false} Pow10Falls(k: int)
    requires k <= 0
    ensures Pow10(k) <= 1.0
    decreases -k
  {
    if k < 0 {
      Pow10Falls(k + 1);
    }
  }

  lemma WholeUnits(x: real)
    ensures UnitsAbove(x, 0) == Ceiling(x)
  {
    assert Pow10(0) == 1.0;
  }

  lemma CeilingOfNext(x: real)
    ensures Ceiling(x + 0.5 + 0.5) == Ceiling(x) + 1
  {
  }

  lemma UnitOrder(a: int, b: int, u: real)
    requires u > 0.0
    ensures Multiple(a, u) >= Multiple(b, u) <==> a >= b
  {
    CancelScale(b as real, a as real, u);
  }

  lemma HalvedLength(u: real, n0: int, p: int, steps: int, stepValue: real)
    requires Halved(u, p, n0, stepValue, steps)
    ensures Multiple(steps, stepValue) == Multiple(n0, u)
  {
    Reassociate(n0 as real, stepValue, p as real);
    assert n0 as real * p as real == steps as real;
  }

  lemma ExactFit(u: real, n0: int, p: int, steps: int, stepValue: real)
    requires Halved(u, p, n0, stepValue, steps)
    requires stepValue > 0.0
    ensures Misses(Multiple(steps, stepValue), Multiple(n0, u), stepValue, n0, 1)
  {
    HalvedLength(u, n0, p, steps, stepValue);
    assert n0 % 1 == 0;
  }

  lemma Distribute(a: int, b: int, unit: real)
    ensures Multiple(a - b, unit) == Multiple(a, unit) - Multiple(b, unit)
  {
  }

  lemma Covers(hi: real, lo: real, unit: real)
    requires unit > 0.0
    ensures Multiple(Ceiling(hi / unit) - 1, unit) < hi <= Multiple(Ceiling(hi / unit), unit)
    ensures Multiple((lo / unit).Floor, unit) <= lo < Multiple((lo / unit).Floor + 1, unit)
  {
    FloorExactly(lo, unit, (lo / unit).Floor);
    CeilingCovers(hi, unit);
    hide Multiple, Ceiling;
  }

  lemma CeilingCovers(hi: real, unit: real)
    requires unit > 0.0
    ensures Multiple(Ceiling(hi / unit) - 1, unit) < hi <= Multiple(Ceiling(hi / unit), unit)
  {
    var y := hi / unit;
    assert y * unit == hi;
    CancelScale(y, Ceiling(y) as real, unit);
    CancelScale((Ceiling(y) - 1) as real, y, unit);
  }

  /** Rounded steps miss the range by at most half a step. */
  lemma RoundedFit(u: real, n0: int, p: int, steps: int, stepValue: real)
    requires u > 0.0 && p > 0 && Doubled(u, p, n0, stepValue, steps)
    ensures Misses(Multiple(steps, stepValue), Multiple(n0, u), stepValue, n0, p)
  {
    RoundedMisses(n0, p);
    MissInUnits(u, n0, p, steps, stepValue);
    HalfAStep(u, p, steps * p - n0, stepValue);
    hide Multiple;
  }

  lemma MissInUnits(u: real, n0: int, p: int, steps: int, stepValue: real)
    requires stepValue == u * p as real
    ensures Multiple(steps, stepValue) - Multiple(n0, u) == Multiple(steps * p - n0, u)
  {
    Reassociate(steps as real, u, p as real);
    assert steps as real * p as real == (steps * p) as real;
    Distribute(steps * p, n0, u);
  }

  lemma HalfAStep(u: real, p: int, miss: int, stepValue: real)
    requires u > 0.0 && stepValue == u * p as real && -p <= 2 * miss <= p
    ensures -(stepValue / 2.0) <= Multiple(miss, u) <= stepValue / 2.0
    ensures Multiple(miss, u) >= 0.0 <==> miss >= 0
  {
    ScaledBounds(miss as real, p as real / 2.0, u);
    HalfOfProduct(u, p as real);
  }

  lemma HalfOfProduct(u: real, p: real)
    ensures u * p / 2.0 == p / 2.0 * u
  {
  }

  lemma ScaledBounds(m: real, h: real, u: real)
    requires u > 0.0 && -h <= m <= h
    ensures -(h * u) <= m * u <= h * u
    ensures m * u >= 0.0 <==> m >= 0.0
  {
    CancelScale(m, h, u);
    Negated(h, u);
    CancelScale(-h, m, u);
    CancelScale(0.0, m, u);
  }

  lemma Negated(h: real, u: real)
    ensures (-h) * u == -(h * u)
  {
  }

  /** How far a rounded quotient misses, and on which side. */
  lemma RoundedMisses(n0: int, p: int)
    requires p > 0
    ensures
      var miss := (2 * n0 + p) / (2 * p) * p - n0;
      && -p <= 2 * miss <= p
      && (miss >= 0 <==> n0 % p == 0 || 2 * (n0 % p) >= p)
  {
    var q, r := n0 / p, n0 % p;
    assert n0 == q * p + r;
    var n := (2 * n0 + p) / (2 * p);
    DivisionBounds(2 * n0 + p, 2 * p);
    if 2 * r >= p {
      QuotientIs(2 * n0 + p, 2 * p, q + 1, 2 * r - p);
      assert (q + 1) * p == q * p + p;
    } else {
      QuotientIs(2 * n0 + p, 2 * p, q, 2 * r + p);
    }
  }

  lemma QuotientIs(a: int, b: int, q: int, r: int)
    requires b > 0 && 0 <= r < b && a == q * b + r
    ensures a / b == q
  {
    DivisionBounds(a, b);
    CancelFactor(q - a / b, b, b - r - 1);
    CancelFactor(a / b - q, b, r);
  }

  /** Nine units with room for three steps get two steps of four. */
  lemma NineUnits()
    ensures Doublings(9, 3) == 2 && Rounded(9, 2) == 2 && Pow2(2) == 4 && Overshoot(9, 3) == -1
  {
    assert Pow2(0) == 1 && Pow2(1) == 2 && Pow2(2) == 4;
    assert Rounded(9, 0) == 9 && Rounded(9, 1) == 5 && Rounded(9, 2) == 2;
    DoublingsAreLeast(9, 3, 2);
    hide Rounded, Pow2, Doublings;
  }

  lemma OrderOfOne(range: real)
    requires 1.0 <= range < 10.0
    ensures IsOrder(range, 0) && Pow10(0) == 1.0
  {
    assert Pow10(1) == 10.0 * Pow10(0);
  }

  lemma NineUnitsScale(scale: Scale, integersOnly: bool)
    requires GoodScale(scale, 3, 0, 0, 9, integersOnly) && OneDirection(scale, 3, 0, 9)
    ensures scale == Scale(2, 4.0, 0.0, 8.0)
  {
    NineUnits();
    hide Rounded, Pow2, Doublings, IsInteger;
    assert Pow10(0) == 1.0;
  }

  /** Such a chart: the values 0 and 8.5, with room for three steps, get an axis that ends at 8. */
  method TopCanBeCutOff() returns (scale: Scale)
    ensures scale == Scale(2, 4.0, 0.0, 8.0) && scale.max < MaxOf([0.0, 8.5])
  {
    hide Rounded, Pow2, Doublings, IsInteger, GoodScale, OneDirection, IsOrder, Pow10;
    var values := [0.0, 8.5];
    assert values[1..] == [8.5];
    assert MaxOf(values) == 8.5 && MinOf(values) == 0.0;
    OrderOfOne(8.5);
    assert MaxSteps(9.0, 2.0) == 3 && UnitsAbove(8.5, 0) == 9;
    scale := CalculateScaleRange(values, 9.0, 2.0, true, false, 0);
    NineUnitsScale(scale, false);
  }

  /** Where whole numbers are asked for, the step value is one unless there is room for two steps only, which then split
      an odd number of ones. A range below one is fitted as if they were not asked for. */
  lemma WholeStepsExactly(scale: Scale, maxSteps: int, order: int, below: int, n0: int)
    requires GoodScale(scale, maxSteps, order, below, n0, true) && order >= 0
    requires maxSteps > 2 ==> IsInteger(scale.stepValue)
    ensures IsInteger(scale.stepValue) <==> maxSteps > 2 || order > 0 || n0 % 2 == 0
  {
    if maxSteps <= 2 {
      HalfOf(n0, order);
      assert scale.stepValue == Multiple(n0, Pow10(order)) / 2.0;
    }
    hide Pow10, IsInteger;
  }

  lemma HalfOf(n0: int, order: int)
    requires order >= 0
    ensures IsInteger(Multiple(n0, Pow10(order)) / 2.0) <==> order > 0 || n0 % 2 == 0
  {
    if order == 0 {
      assert Pow10(0) == 1.0;
      HalfIsInteger(n0);
    } else {
      var p := Pow10(order - 1);
      assert Pow10(order) == 10.0 * p && p == p.Floor as real;
      TimesFive(n0, p.Floor);
    }
  }

  lemma HalfIsInteger(n: int)
    ensures IsInteger(n as real / 2.0) <==> n % 2 == 0
  {
    var q, r := n / 2, n % 2;
    var x := q as real + (if r == 0 then 0.0 else 0.5);
    assert n == 2 * q + r;
    assert n as real / 2.0 == x;
    FloorIs(x, q);
  }

  lemma TimesFive(n: int, p: int)
    ensures IsInteger(Multiple(n, 10.0 * p as real) / 2.0)
  {
    assert Multiple(n, 10.0 * p as real) / 2.0 == (n * (5 * p)) as real;
  }

  /** The values 0 and 3 with room for two steps get steps of one and a half, although whole numbers are asked for. */
  method WholeStepsCanFail() returns (scale: Scale)
    ensures scale == Scale(2, 1.5, 0.0, 3.0)
  {
    hide Rounded, Pow2, Doublings, IsInteger, OneDirection, IsOrder, Pow10;
    var values := [0.0, 3.0];
    assert values[1..] == [3.0];
    assert MaxOf(values) == 3.0 && MinOf(values) == 0.0;
    OrderOfOne(3.0);
    assert MaxSteps(6.0, 2.0) == 2 && UnitsAbove(3.0, 0) == 3;
    scale := CalculateScaleRange(values, 6.0, 2.0, true, true, 0);
  }

  /** The value 8 alone gets the same axis, and is reached: its range was widened by one. */
  method EqualValuesAreReached() returns (scale: Scale)
    ensures scale == Scale(2, 4.0, 0.0, 8.0) && scale.max == MaxOf([8.0])
  {
    hide Rounded, Pow2, Doublings, IsInteger, GoodScale, OneDirection, IsOrder, Pow10;
    var values := [8.0];
    assert MaxOf(values) == 8.0 && MinOf(values) == 8.0;
    OrderOfOne(1.0);
    assert MaxSteps(9.0, 2.0) == 3 && UnitsAbove(9.0, 0) == 9;
    scale := CalculateScaleRange(values, 9.0, 2.0, true, false, 0);
    NineUnitsScale(scale, false);
  }

  /** The values -3 and -1 on an axis that starts from zero keep the loop halving, whatever the room. */
  lemma FittingCanGoOnForEver(order: int, maxSteps: int)
    requires maxSteps > 2
    ensures
      var (lo, hi) := Spread([-3.0, -1.0], true);
      var n0 := UnitsAbove(hi, order) - UnitsBelow(lo, order, true);
      forall h: nat :: KeepsHalving(Multiple(n0, Pow10(order)), order, maxSteps, h)
  {
    var values := [-3.0, -1.0];
    assert values[1..] == [-1.0];
    assert MaxOf(values) == -1.0 && MinOf(values) == -3.0;
    FittingNeverEndsExactly(values, order, true, maxSteps);
    hide KeepsHalving, UnitsAbove, UnitsBelow, Spread, Pow10, Multiple;
    assert !TopIsPositive(values);
  }
}
