/** Integer distances on the globe (core/src/geo.cpp:11-173).  Every intermediate value is bound at the
    type the program gives it, so that it verifies is the proof that none overflows. */
module Geo {
  import opened Wrappers

  type int64 = x: int | -0x8000_0000_0000_0000 <= x < 0x8000_0000_0000_0000
  type uint64 = x: int | 0 <= x < 0x1_0000_0000_0000_0000

  // ---------------------------------------------------------------------------
  // The square root.

  /** The largest number whose square is not above `n`. */
  predicate IsRoot(r: nat, n: nat) {
    r * r <= n < (r + 1) * (r + 1)
  }

  lemma RootUnique(r: nat, s: nat, n: nat)
    requires IsRoot(r, n) && IsRoot(s, n)
    ensures r == s
  {
    if r < s {
      Squares(r + 1, s);
    } else if s < r {
      Squares(s + 1, r);
    }
  }

  lemma OnlyRoot(r: nat, n: nat)
    requires IsRoot(r, n)
    ensures forall s: nat :: IsRoot(s, n) <==> s == r
  {
    forall s: nat | IsRoot(s, n) ensures s == r {
      RootUnique(r, s, n);
    }
  }

  lemma Squares(a: nat, b: nat)
    requires a <= b
    ensures a * a <= b * b
  {
    assert b * b == a * a + (b - a) * (b + a);
  }

  lemma RootMonotone(r: nat, n: nat, s: nat, m: nat)
    requires IsRoot(r, n) && IsRoot(s, m) && n <= m
    ensures r <= s
  {
    if s < r {
      Squares(s + 1, r);
    }
  }

  predicate NotBelowRoot(g: nat, n: nat) {
    n < (g + 1) * (g + 1)
  }

  predicate NotAboveRoot(g: nat, n: nat) {
    g * g <= n
  }

  function Newton(g: nat, n: nat): nat
    requires g > 0
  {
    (g + n / g) / 2
  }

  /** One Newton step stays at or above the root, and one that does not go down started at the root or
      below it. */
  lemma NewtonStep(g: nat, n: nat)
    requires 1 <= g <= n
    ensures NotBelowRoot(Newton(g, n), n) && 1 <= Newton(g, n) <= n
    ensures Newton(g, n) >= g ==> NotAboveRoot(g, n)
    ensures g + n / g <= n + 1
  {
    var q := n / g;
    BelowQuotient(n, g);
    SumFits(g, n);
    assert n < g * (q + 1);
    TwiceMean(g, q + 1, Newton(g, n) + 1);
    if Newton(g, n) >= g {
      Grows(g, q);
    }
  }

  /** The search starts from the value itself. */
  lemma FirstStep(n: nat)
    requires n > 0
    ensures (n + 1) / 2 == Newton(n, n) && NotBelowRoot(n, n)
  {
    Grows(n + 1, n + 1);
    assert (n + 1) * (n + 1) == n * n + 2 * n + 1;
  }

  lemma BelowQuotient(n: nat, g: nat)
    requires g > 0
    ensures g * (n / g) <= n < g * (n / g + 1)
  {
  }

  lemma TwiceMean(a: nat, b: nat, m: nat)
    requires 2 * m >= a + b
    ensures a * b <= m * m
  {
    Squares(a + b, 2 * m);
    assert (a + b) * (a + b) == 4 * (a * b) + (a - b) * (a - b);
    assert (a - b) * (a - b) >= 0;
    assert (2 * m) * (2 * m) == 4 * (m * m);
  }

  lemma Grows(g: nat, q: nat)
    requires q >= g
    ensures g * q >= g * g
  {
    assert g * q == g * g + g * (q - g);
  }

  /** The sum of a Newton step never passes `n + 1`, so 64 bits hold it. */
  lemma SumFits(g: nat, n: nat)
    requires 1 <= g <= n
    ensures g + n / g <= n + 1
  {
    var q := n / g;
    BelowQuotient(n, g);
    NoNegativeProduct(g - 1, q - 1);
    assert (g - 1) * (q - 1) == g * q - g - q + 1;
  }

  const TOP: nat := 0xFFFF_FFFF_FFFF_FFFF

  /** A 64-bit sum. */
  function Wrap(x: nat): (w: uint64)
    ensures x <= TOP ==> w == x
    ensures x == TOP + 1 ==> w == 0
  {
    x % (TOP + 1)
  }

  /** The root is exact for every input but the largest, for which the first sum wraps to nothing and
      the step after it divides by zero: there is no result at all. */
  method Isqrt(value: uint64) returns (root: Option<uint64>)
    ensures root == None <==> value == TOP
    ensures root.Some? ==> forall r: nat :: IsRoot(r, value) <==> r == root.value
  {
    if value == 0 {
      OnlyRoot(0, value);
      return Some(0);
    }
    var guess: uint64 := value;
    var next: uint64 := Wrap(guess + 1) / 2;
    if value < TOP {
      FirstStep(value);
    }
    while next < guess
      invariant value == TOP ==> guess == value && next == 0
      invariant value < TOP ==> 1 <= guess <= value && NotBelowRoot(guess, value) && next == Newton(guess, value)
      decreases guess
    {
      if value < TOP {
        NewtonStep(guess, value);
      }
      guess := next;
      if guess == 0 {
        return None;
      }
      NewtonStep(guess, value);
      next := Wrap(guess + value / guess) / 2;
    }
    NewtonStep(guess, value);
    OnlyRoot(guess, value);
    return Some(guess);
  }

  // ---------------------------------------------------------------------------
  // The cosine.

  const E7: nat := 10000000
  const LATITUDE_MAX: nat := 900000000
  const LONGITUDE_MAX: nat := 1800000000
  const COS_SCALE: nat := 16777216
  const SATURATED: nat := 1000000000

  /** The cosine of each whole degree, in 1024ths, ten degrees to a row. */
  const COS_TABLE: seq<seq<nat>> := [
    [1024, 1024, 1023, 1023, 1022, 1020, 1018, 1016, 1014, 1011],
    [1008, 1005, 1002, 998, 994, 989, 984, 979, 974, 968],
    [962, 956, 949, 943, 935, 928, 920, 912, 904, 896],
    [887, 878, 868, 859, 849, 839, 828, 818, 807, 796],
    [784, 773, 761, 749, 737, 724, 711, 698, 685, 672],
    [658, 644, 630, 616, 602, 587, 573, 558, 543, 527],
    [512, 496, 481, 465, 449, 433, 416, 400, 384, 367],
    [350, 333, 316, 299, 282, 265, 248, 230, 213, 195],
    [178, 160, 143, 125, 107, 89, 71, 54, 36, 18],
    [0]]

  function Cos(degrees: nat): nat {
    if degrees > 90 then 0
    else
      assert |COS_TABLE[degrees / 10]| > degrees % 10;
      COS_TABLE[degrees / 10][degrees % 10]
  }

  predicate Descends(row: seq<nat>, next: nat) {
    |row| == 10 && row[0] <= 1024 && (forall c :: 0 <= c < 9 ==> row[c + 1] <= row[c]) && next <= row[9]
  }

  lemma RowsDescend()
    ensures forall r :: 0 <= r < 9 ==> Descends(COS_TABLE[r], COS_TABLE[r + 1][0])
  {
  }

  lemma {:induction false} FirstIsLargest(row: seq<nat>, next: nat, c: nat)
    requires Descends(row, next) && c < 10
    ensures row[c] <= 1024
  {
    if c > 0 {
      FirstIsLargest(row, next, c - 1);
    }
  }

  lemma TableDescends(i: nat)
    requires i < 90
    ensures Cos(i + 1) <= Cos(i) <= 1024
  {
    RowsDescend();
    var r := i / 10;
    assert Descends(COS_TABLE[r], COS_TABLE[r + 1][0]);
    FirstIsLargest(COS_TABLE[r], COS_TABLE[r + 1][0], i % 10);
  }

  lemma {:induction false} StepsDown(f: nat -> nat, i: nat, j: nat)
    requires i <= j && forall k :: i <= k < j ==> f(k + 1) <= f(k)
    ensures f(j) <= f(i)
  {
    if i < j {
      StepsDown(f, i, j - 1);
      assert f(j - 1 + 1) <= f(j - 1);
    }
  }

  lemma TableOrdered(i: nat, j: nat)
    requires i <= j <= 90
    ensures Cos(j) <= Cos(i) <= 1024
  {
    forall k | i <= k < j ensures Cos(k + 1) <= Cos(k) {
      TableDescends(k);
    }
    StepsDown(Cos, i, j);
    if i < 90 {
      TableDescends(i);
    }
  }

  /** The mean of two neighbouring entries, weighted by how far between them the latitude is. */
  function Mean(lower: nat, upper: nat, part: nat): nat
    requires part <= E7
  {
    NoNegativeProduct(lower, E7 - part);
    NoNegativeProduct(upper, part);
    lower * (E7 - part) + upper * part
  }

  lemma MeanDescends(lower: nat, upper: nat, part: nat, further: nat)
    requires upper <= lower && part <= further <= E7
    ensures upper * E7 <= Mean(lower, upper, further) <= Mean(lower, upper, part) <= lower * E7
  {
    assert Mean(lower, upper, part) - Mean(lower, upper, further) == (lower - upper) * (further - part);
    assert lower * E7 - Mean(lower, upper, part) == (lower - upper) * part;
    assert Mean(lower, upper, further) - upper * E7 == (lower - upper) * (E7 - further);
  }

  function Weighted(magnitude: nat): nat
    requires magnitude <= LATITUDE_MAX
  {
    var degrees, part := magnitude / E7, magnitude % E7;
    Mean(Cos(degrees), Cos(degrees + 1), part)
  }

  lemma WeightedBounds(magnitude: nat)
    requires magnitude <= LATITUDE_MAX
    ensures Weighted(magnitude) <= Cos(magnitude / E7) * E7 <= 1024 * E7
    ensures magnitude / E7 < 90 ==> Cos(magnitude / E7 + 1) * E7 <= Weighted(magnitude)
  {
    var degrees, part := magnitude / E7, magnitude % E7;
    if degrees < 90 {
      TableDescends(degrees);
      MeanDescends(Cos(degrees), Cos(degrees + 1), part, part);
    }
    TableOrdered(degrees, 90);
  }

  lemma WeightedDescends(near: nat, far: nat)
    requires near <= far <= LATITUDE_MAX
    ensures Weighted(far) <= Weighted(near)
  {
    var d, e := near / E7, far / E7;
    if d == e {
      if d < 90 {
        TableDescends(d);
        MeanDescends(Cos(d), Cos(d + 1), near % E7, far % E7);
      }
    } else {
      WeightedBounds(near);
      WeightedBounds(far);
      TableOrdered(d + 1, e);
    }
  }

  function Magnitude(x: int): nat {
    if x < 0 then -x else x
  }

  /** The factor for any 32-bit latitude, in or out of range. */
  function CosScaled(latitude: int): (c: int64)
    requires -0x8000_0000 <= latitude < 0x8000_0000
    ensures 0 <= c <= COS_SCALE
  {
    var widened: int64 := Magnitude(latitude);
    var magnitude: int64 := if widened > LATITUDE_MAX then LATITUDE_MAX else widened;
    WeightedBounds(magnitude);
    var weighted: int64 := Weighted(magnitude);
    var lifted: int64 := weighted * (COS_SCALE / 1024) + E7 / 2;
    lifted / E7
  }

  /** Longitude shrinks towards both poles. */
  lemma CosDescends(near: int, far: int)
    requires -0x8000_0000 <= near < 0x8000_0000 && -0x8000_0000 <= far < 0x8000_0000
    requires Magnitude(near) <= Magnitude(far)
    ensures CosScaled(far) <= CosScaled(near)
    ensures CosScaled(-(LATITUDE_MAX as int)) == CosScaled(LATITUDE_MAX) == 0 && CosScaled(0) == COS_SCALE
  {
    WeightedDescends(if Magnitude(near) > LATITUDE_MAX then LATITUDE_MAX else Magnitude(near),
                     if Magnitude(far) > LATITUDE_MAX then LATITUDE_MAX else Magnitude(far));
  }

  // ---------------------------------------------------------------------------
  // Distances.

  /** Division that truncates towards zero. */
  function Quotient(a: int, b: nat): (q: int)
    requires b > 0
    ensures Magnitude(q) == Magnitude(a) / b
  {
    NoNegativeQuotient(Magnitude(a), b);
    if a < 0 then -(Magnitude(a) / b) else Magnitude(a) / b
  }

  lemma NoNegativeQuotient(a: nat, b: nat)
    requires b > 0
    ensures a / b >= 0
  {
  }

  lemma DivideOrdered(a: nat, c: nat, b: nat)
    requires b > 0 && a <= c
    ensures a / b <= c / b
  {
    BelowQuotient(c, b);
    BelowQuotient(a, b);
    if c / b + 1 <= a / b {
      ProductOrdered(c / b + 1, a / b, b);
    }
  }

  lemma ProductOrdered(a: nat, b: nat, c: nat)
    requires a <= b
    ensures a * c <= b * c
  {
    assert b * c == a * c + (b - a) * c;
  }

  /** Millimetres north. */
  function LatToMm(delta: int64): (mm: int64)
    requires Magnitude(delta) <= LONGITUDE_MAX
    ensures Magnitude(mm) <= 20_037_600_000
  {
    var scaled: int64 := delta * 11132;
    Quotient(scaled, 1000)
  }

  /** Millimetres east, at a latitude. */
  function LonToMm(delta: int64, latitude: int): int64
    requires Magnitude(delta) <= LONGITUDE_MAX && -0x8000_0000 <= latitude < 0x8000_0000
  {
    ProductFits(LatToMm(delta), CosScaled(latitude));
    var product: int64 := LatToMm(delta) * CosScaled(latitude);
    Quotient(product, COS_SCALE)
  }

  lemma ProductFits(mm: int, factor: nat)
    requires Magnitude(mm) <= 20_037_600_000 && factor <= COS_SCALE
    ensures Magnitude(mm * factor) == Magnitude(mm) * factor <= 20_037_600_000 * COS_SCALE
  {
    if mm < 0 {
      assert mm * factor == -((-mm) * factor);
    }
    assert Magnitude(mm) * factor <= Magnitude(mm) * COS_SCALE;
  }

  function Clamp(mm: int64): (c: int64)
    ensures Magnitude(c) == if Magnitude(mm) > SATURATED then SATURATED else Magnitude(mm)
  {
    if mm > SATURATED then SATURATED else if mm < -(SATURATED as int) then -(SATURATED as int) else mm
  }

  datatype Position = Position(latitude: int, longitude: int) {
    predicate InRange() {
      Magnitude(latitude) <= LATITUDE_MAX && Magnitude(longitude) <= LONGITUDE_MAX
    }
  }

  /** The difference the short way round. */
  function Wrapped(delta: int): int {
    if delta > LONGITUDE_MAX then delta - 2 * LONGITUDE_MAX
    else if delta < -(LONGITUDE_MAX as int) then delta + 2 * LONGITUDE_MAX
    else delta
  }

  function MeanLatitude(a: Position, b: Position): int {
    Quotient(a.latitude + b.latitude, 2)
  }

  function NorthOf(delta: int): (c: int64)
    requires Magnitude(delta) <= LONGITUDE_MAX
    ensures Magnitude(c) <= SATURATED
  {
    Clamp(LatToMm(delta))
  }

  function EastOf(delta: int, latitude: int): (c: int64)
    requires Magnitude(delta) <= LONGITUDE_MAX && -0x8000_0000 <= latitude < 0x8000_0000
    ensures Magnitude(c) <= SATURATED
  {
    Clamp(LonToMm(delta, latitude))
  }

  function North(a: Position, b: Position): int64
    requires a.InRange() && b.InRange()
  {
    NorthOf(a.latitude - b.latitude)
  }

  function East(a: Position, b: Position): int64
    requires a.InRange() && b.InRange()
  {
    EastOf(Wrapped(a.longitude - b.longitude), MeanLatitude(a, b))
  }

  function Square(x: int): nat {
    Squares(0, Magnitude(x));
    Magnitude(x) * Magnitude(x)
  }

  function Squared(a: Position, b: Position): nat
    requires a.InRange() && b.InRange()
  {
    Square(North(a, b)) + Square(East(a, b))
  }

  /** What the distance of two positions is: the rounded-down length of the vector between them, no
      more than the largest answer, which is also the one for a place off the globe. */
  predicate IsDistance(d: nat, a: Position, b: Position) {
    if !a.InRange() || !b.InRange() then d == SATURATED
    else if Squared(a, b) >= SATURATED * SATURATED then d == SATURATED
    else IsRoot(d, Squared(a, b))
  }

  method DistanceMm(a: Position, b: Position) returns (d: nat)
    ensures d <= SATURATED && forall e: nat :: IsDistance(e, a, b) <==> e == d
  {
    if !a.InRange() || !b.InRange() {
      return SATURATED;
    }
    var dy, dx := North(a, b), East(a, b);
    SquareFits(dy);
    SquareFits(dx);
    var north: int64, east: int64 := dy * dy, dx * dx;
    var squared: uint64 := north + east;
    var root := Isqrt(squared);
    RootSaturates(root.value, squared);
    return if root.value >= SATURATED then SATURATED else root.value;
  }

  lemma SquareFits(x: int)
    requires Magnitude(x) <= SATURATED
    ensures 0 <= x * x == Square(x) <= SATURATED * SATURATED
  {
    Squares(Magnitude(x), SATURATED);
    if x < 0 {
      assert x * x == (-x) * (-x);
    }
  }

  lemma RootSaturates(r: nat, n: nat)
    requires IsRoot(r, n)
    ensures r >= SATURATED <==> n >= SATURATED * SATURATED
  {
    if r >= SATURATED {
      Squares(SATURATED, r);
    } else {
      Squares(r + 1, SATURATED);
    }
  }

  /** Two vectors, neither component of the first longer than the second's. */
  lemma ShorterIsNearer(d: nat, a: Position, b: Position, e: nat, u: Position, v: Position)
    requires IsDistance(d, a, b) && IsDistance(e, u, v)
    requires a.InRange() && b.InRange() && u.InRange() && v.InRange()
    requires Magnitude(North(a, b)) <= Magnitude(North(u, v)) && Magnitude(East(a, b)) <= Magnitude(East(u, v))
    ensures d <= e
  {
    Squares(Magnitude(North(a, b)), Magnitude(North(u, v)));
    Squares(Magnitude(East(a, b)), Magnitude(East(u, v)));
    if Squared(u, v) >= SATURATED * SATURATED {
      AtMostSaturated(d, a, b);
    } else {
      RootMonotone(d, Squared(a, b), e, Squared(u, v));
    }
  }

  lemma AtMostSaturated(d: nat, a: Position, b: Position)
    requires IsDistance(d, a, b)
    ensures d <= SATURATED
  {
    if d > SATURATED {
      RootSaturates(d, Squared(a, b));
    }
  }

  lemma EastOrdered(delta: int, further: int, latitude: int)
    requires Magnitude(delta) <= Magnitude(further) <= LONGITUDE_MAX && -0x8000_0000 <= latitude < 0x8000_0000
    ensures Magnitude(EastOf(delta, latitude)) <= Magnitude(EastOf(further, latitude))
  {
    var c := CosScaled(latitude);
    DivideOrdered(Magnitude(delta * 11132), Magnitude(further * 11132), 1000);
    var mm, more := LatToMm(delta), LatToMm(further);
    ProductFits(mm, c);
    ProductFits(more, c);
    ProductOrdered(Magnitude(mm), Magnitude(more), c);
    DivideOrdered(Magnitude(mm * c), Magnitude(more * c), COS_SCALE);
  }

  lemma SameNorth(a: Position, b: Position, u: Position, v: Position)
    requires a.InRange() && b.InRange() && u.InRange() && v.InRange()
    requires a.latitude == u.latitude && b.latitude == v.latitude
    ensures North(a, b) == North(u, v) && MeanLatitude(a, b) == MeanLatitude(u, v)
  {
  }

  lemma EastGrows(a: Position, b: Position, u: Position, v: Position)
    requires a.InRange() && b.InRange() && u.InRange() && v.InRange()
    requires MeanLatitude(a, b) == MeanLatitude(u, v)
    requires Magnitude(Wrapped(a.longitude - b.longitude)) <= Magnitude(Wrapped(u.longitude - v.longitude))
    ensures Magnitude(East(a, b)) <= Magnitude(East(u, v))
  {
    EastOrdered(Wrapped(a.longitude - b.longitude), Wrapped(u.longitude - v.longitude), MeanLatitude(a, b));
  }

  /** Along a pair of latitudes, distance grows with the longitude difference the short way round. */
  lemma DistanceMonotone(d: nat, a: Position, b: Position, e: nat, u: Position, v: Position)
    requires IsDistance(d, a, b) && IsDistance(e, u, v)
    requires a.InRange() && b.InRange() && u.InRange() && v.InRange()
    requires a.latitude == u.latitude && b.latitude == v.latitude
    requires Magnitude(Wrapped(a.longitude - b.longitude)) <= Magnitude(Wrapped(u.longitude - v.longitude))
    ensures d <= e
  {
    SameNorth(a, b, u, v);
    EastGrows(a, b, u, v);
    ShorterIsNearer(d, a, b, e, u, v);
  }

  lemma LatMirrors(delta: int64)
    requires Magnitude(delta) <= LONGITUDE_MAX
    ensures Magnitude(NorthOf(-delta)) == Magnitude(NorthOf(delta))
  {
    assert Magnitude(-delta * 11132) == Magnitude(delta * 11132);
  }

  lemma ComponentsMirror(a: Position, b: Position)
    requires a.InRange() && b.InRange()
    ensures Magnitude(North(a, b)) == Magnitude(North(b, a)) && Magnitude(East(a, b)) == Magnitude(East(b, a))
  {
    LatMirrors(a.latitude - b.latitude);
    assert MeanLatitude(a, b) == MeanLatitude(b, a);
    EastGrows(a, b, b, a);
    EastGrows(b, a, a, b);
  }

  lemma DistanceSymmetric(d: nat, a: Position, b: Position, e: nat)
    requires IsDistance(d, a, b) && IsDistance(e, b, a)
    ensures d == e
  {
    if a.InRange() && b.InRange() {
      ComponentsMirror(a, b);
      ShorterIsNearer(d, a, b, e, b, a);
      ShorterIsNearer(e, b, a, d, a, b);
    }
  }

  /** 180 degrees east and west are one meridian, however either end is spelled. */
  lemma MeridianHasTwoSpellings(d: nat, a: Position, b: Position, e: nat)
    requires Magnitude(a.longitude) == LONGITUDE_MAX
    requires IsDistance(d, a, b) && IsDistance(e, a.(longitude := -a.longitude), b)
    ensures d == e
  {
    var again := a.(longitude := -a.longitude);
    if a.InRange() && b.InRange() {
      DistanceMonotone(d, a, b, e, again, b);
      DistanceMonotone(e, again, b, d, a, b);
    }
  }

  /** No distance is shorter than either of its components, nor longer than the two end to end. */
  lemma DistanceBetweenItsComponents(d: nat, a: Position, b: Position)
    requires IsDistance(d, a, b) && a.InRange() && b.InRange()
    ensures Magnitude(North(a, b)) <= d && Magnitude(East(a, b)) <= d <= Magnitude(North(a, b)) + Magnitude(East(a, b))
  {
    var x, y := Magnitude(North(a, b)), Magnitude(East(a, b));
    if Squared(a, b) >= SATURATED * SATURATED {
      Squares(SATURATED, d);
      RootBetween(SATURATED, x, y);
    } else {
      RootBetween(d, x, y);
    }
  }

  lemma RootBetween(r: nat, x: nat, y: nat)
    requires r * r <= x * x + y * y
    ensures r <= x + y
    ensures x * x + y * y < (r + 1) * (r + 1) ==> x <= r && y <= r
  {
    assert (x + y) * (x + y) == x * x + y * y + 2 * (x * y);
    NoNegativeProduct(x, y);
    if r > x + y { StrictSquares(x + y, r); }
    if r < x { Squares(r + 1, x); NoNegativeProduct(y, y); }
    if r < y { Squares(r + 1, y); NoNegativeProduct(x, x); }
  }

  lemma NoNegativeProduct(x: nat, y: nat)
    ensures x * y >= 0
  {
  }

  lemma StrictSquares(a: nat, b: nat)
    requires a < b
    ensures a * a < b * b
  {
    assert b * b == a * a + (b - a) * (b + a);
    assert (b - a) * (b + a) > 0;
  }
}
