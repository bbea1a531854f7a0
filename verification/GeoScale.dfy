/** What the integers of core/src/geo.cpp:25-173 come to on the globe: millimetres along a meridian and along
    a parallel, and the table of cosines against cosines. */
module GeoScale {
  import opened Wrappers
  import opened Geo

  // ---------------------------------------------------------------------------
  // Along one component.

  function Least(a: nat, b: nat): nat {
    if a < b then a else b
  }

  /** With one component nothing, the distance is the other. */
  lemma OneComponent(d: nat, a: Position, b: Position, x: nat)
    requires a.InRange() && b.InRange() && x <= 1_000_000_000
    requires Square(North(a, b)) + Square(East(a, b)) == x * x
    ensures IsDistance(d, a, b) <==> d == x
  {
    Squares(x, 1_000_000_000);
    if x < 1_000_000_000 {
      StrictSquares(x, 1_000_000_000);
      StrictSquares(x, x + 1);
      OnlyRoot(x, x * x);
    }
  }

  lemma Lengths(delta: int64, mm: nat)
    requires Magnitude(delta) <= 1_800_000_000 && mm == Magnitude(delta) * 11132 / 1000
    ensures Magnitude(LatToMm(delta)) == mm && Magnitude(NorthOf(delta)) == Least(mm, 1_000_000_000)
  {
    assert Magnitude(delta * 11132) == Magnitude(delta) * 11132;
  }

  /** Along a meridian a ten-millionth of a degree is 11.132 mm, so a degree is 111.32 km, rounded down and
      up to the largest answer. */
  lemma MeridianScale(d: nat, a: Position, b: Position)
    requires a.InRange() && b.InRange() && a.longitude == b.longitude
    ensures IsDistance(d, a, b) <==> d == Least(Magnitude(a.latitude - b.latitude) * 11132 / 1000, 1_000_000_000)
  {
    var delta := a.latitude - b.latitude;
    var mm := Magnitude(delta) * 11132 / 1000;
    Lengths(delta, mm);
    Lengths(0, 0);
    Nothing(MeanLatitude(a, b));
    OneComponent(d, a, b, Least(mm, 1_000_000_000));
  }

  lemma Nothing(latitude: int)
    requires -0x8000_0000 <= latitude < 0x8000_0000
    ensures EastOf(0, latitude) == 0
  {
    assert LatToMm(0) == 0;
  }

  /** How far apart two longitudes are, the short way round. */
  function ShortWay(a: int, b: int): int {
    if Magnitude(a - b) <= 1_800_000_000 then Magnitude(a - b) else 3_600_000_000 - Magnitude(a - b)
  }

  lemma EastLengths(delta: int64, latitude: int, mm: nat, factor: nat)
    requires Magnitude(delta) <= 1_800_000_000 && -0x8000_0000 <= latitude < 0x8000_0000
    requires mm == Magnitude(delta) * 11132 / 1000 && factor == CosScaled(latitude)
    ensures mm * factor / 16777216 >= 0
    ensures Magnitude(EastOf(delta, latitude)) == Least(mm * factor / 16777216, 1_000_000_000)
  {
    Lengths(delta, mm);
    ProductFits(LatToMm(delta), factor);
    NoNegativeQuotient(mm * factor, 16777216);
  }

  lemma WholeFactor(mm: nat)
    ensures mm * 16777216 / 16777216 == mm
  {
  }

  /** Along a parallel it is that much, times the cosine of the latitude in parts of 2^24, the short way
      round; so at the equator it is all of it. */
  lemma ParallelScale(d: nat, a: Position, b: Position, mm: nat, factor: nat)
    requires a.InRange() && b.InRange() && a.latitude == b.latitude
    requires mm == ShortWay(a.longitude, b.longitude) * 11132 / 1000 && factor == CosScaled(a.latitude)
    ensures mm * factor / 16777216 >= 0
    ensures IsDistance(d, a, b) <==> d == Least(mm * factor / 16777216, 1_000_000_000)
    ensures a.latitude == 0 ==> (IsDistance(d, a, b) <==> d == Least(mm, 1_000_000_000))
  {
    var delta := Wrapped(a.longitude - b.longitude);
    TwiceHalved(a.latitude);
    EastLengths(delta, a.latitude, mm, factor);
    NoNorth(a, b);
    OneComponent(d, a, b, Least(mm * factor / 16777216, 1_000_000_000));
    if a.latitude == 0 {
      CosDescends(0, 0);
      WholeFactor(mm);
    }
  }

  lemma NoNorth(a: Position, b: Position)
    requires a.InRange() && b.InRange() && a.latitude == b.latitude
    ensures Square(North(a, b)) == 0
  {
    assert LatToMm(0) == 0;
  }

  lemma TwiceHalved(x: int)
    ensures Quotient(x + x, 2) == x
  {
  }

  /** The cosine is taken half way between the two latitudes. */
  lemma HalfWay(a: Position, b: Position)
    ensures -1 <= 2 * MeanLatitude(a, b) - (a.latitude + b.latitude) <= 1
    ensures a.latitude + b.latitude >= 0 ==> MeanLatitude(a, b) == (a.latitude + b.latitude) / 2
  {
  }

  /** A place that is not on the globe is as far from anywhere as there is. */
  lemma OffTheGlobe(d: nat, a: Position, b: Position)
    requires !(-900_000_000 <= a.latitude <= 900_000_000 && -1_800_000_000 <= a.longitude <= 1_800_000_000)
             || !(-900_000_000 <= b.latitude <= 900_000_000 && -1_800_000_000 <= b.longitude <= 1_800_000_000)
    ensures IsDistance(d, a, b) <==> d == 1_000_000_000
  {
  }

  // ---------------------------------------------------------------------------
  // The factor between whole degrees.

  lemma Splits(latitude: nat, degrees: nat, part: nat)
    requires latitude == degrees * 10_000_000 + part && part < 10_000_000
    ensures latitude / 10_000_000 == degrees && latitude % 10_000_000 == part
  {
  }

  lemma FactorOf(latitude: nat, weighted: nat)
    requires latitude <= 900_000_000 && weighted == Weighted(latitude)
    ensures CosScaled(latitude) == CosScaled(-(latitude as int)) == (weighted * 16384 + 5_000_000) / 10_000_000
  {
  }

  lemma WeightedOf(latitude: nat, degrees: nat, part: nat)
    requires latitude == degrees * 10_000_000 + part <= 900_000_000 && part < 10_000_000
    ensures Weighted(latitude) == Mean(Cos(degrees), Cos(degrees + 1), part)
  {
    Splits(latitude, degrees, part);
  }

  lemma StraightMean(low: nat, high: nat, part: nat, factor: int)
    requires part < 10_000_000 && factor == (Mean(low, high, part) * 16384 + 5_000_000) / 10_000_000
    ensures var line := (low * (10_000_000 - part) + high * part) * 16384;
            -5_000_000 < factor * 10_000_000 - line <= 5_000_000
    ensures part == 0 ==> factor == low * 16384
  {
    Nearest(Mean(low, high, part) * 16384);
    NearestWhole(low * 16384);
  }

  /** Between two whole degrees the factor is the straight line between their entries, to the nearest. */
  lemma FactorIsStraight(latitude: nat, degrees: nat, part: nat)
    requires latitude == degrees * 10_000_000 + part <= 900_000_000 && part < 10_000_000
    ensures CosScaled(latitude) == CosScaled(-(latitude as int))
    ensures var line := (Cos(degrees) * (10_000_000 - part) + Cos(degrees + 1) * part) * 16384;
            -5_000_000 < CosScaled(latitude) * 10_000_000 - line <= 5_000_000
    ensures part == 0 ==> CosScaled(latitude) == Cos(degrees) * 16384
  {
    WeightedOf(latitude, degrees, part);
    FactorOf(latitude, Weighted(latitude));
    StraightMean(Cos(degrees), Cos(degrees + 1), part, CosScaled(latitude));
  }

  /** Adding half and dividing goes to the nearest. */
  lemma Nearest(x: nat)
    ensures -5_000_000 < (x + 5_000_000) / 10_000_000 * 10_000_000 - x <= 5_000_000
  {
  }

  lemma NearestWhole(x: nat)
    ensures (x * 10_000_000 + 5_000_000) / 10_000_000 == x
  {
  }

  // ---------------------------------------------------------------------------
  // The table is the cosine.

  /** The cosine of each whole degree in thousand-millionths. */
  const COSINE: seq<seq<nat>> := [
    [1000000000, 999847695, 999390827, 998629535, 997564050, 996194698, 994521895, 992546152, 990268069, 987688341],
    [984807753, 981627183, 978147601, 974370065, 970295726, 965925826, 961261696, 956304756, 951056516, 945518576],
    [939692621, 933580426, 927183855, 920504853, 913545458, 906307787, 898794046, 891006524, 882947593, 874619707],
    [866025404, 857167301, 848048096, 838670568, 829037573, 819152044, 809016994, 798635510, 788010754, 777145961],
    [766044443, 754709580, 743144825, 731353702, 719339800, 707106781, 694658370, 681998360, 669130606, 656059029],
    [642787610, 629320391, 615661475, 601815023, 587785252, 573576436, 559192903, 544639035, 529919264, 515038075],
    [500000000, 484809620, 469471563, 453990500, 438371147, 422618262, 406736643, 390731128, 374606593, 358367950],
    [342020143, 325568154, 309016994, 292371705, 275637356, 258819045, 241921896, 224951054, 207911691, 190808995],
    [173648178, 156434465, 139173101, 121869343, 104528463, 87155743, 69756474, 52335956, 34899497, 17452406],
    [0]]

  /** Nine rows of ten and one more. */
  ghost predicate Shaped(rows: seq<seq<nat>>) {
    |rows| == 10 && |rows[9]| == 1 && forall r :: 0 <= r < 9 ==> |rows[r]| == 10
  }

  function Entry(rows: seq<seq<nat>>, degrees: nat): nat
    requires Shaped(rows) && degrees <= 90
  {
    rows[degrees / 10][degrees % 10]
  }

  /** The law of cosines that are a degree apart, cos(x + 1) + cos(x - 1) = 2 cos(1) cos(x), to within two
      thousand-millionths. */
  predicate DegreeApart(before: int, x: int, after: int) {
    -2 * 1_000_000_000 <= (before + after) * 1_000_000_000 - 2 * 999_847_695 * x <= 2 * 1_000_000_000
  }

  /** Each of the ten entries of a row has its neighbours a degree apart. */
  predicate RowApart(before: int, row: seq<nat>, after: int) {
    && |row| == 10 && DegreeApart(before, row[0], row[1]) && DegreeApart(row[8], row[9], after)
    && DegreeApart(row[0], row[1], row[2]) && DegreeApart(row[1], row[2], row[3]) && DegreeApart(row[2], row[3], row[4])
    && DegreeApart(row[3], row[4], row[5]) && DegreeApart(row[4], row[5], row[6]) && DegreeApart(row[5], row[6], row[7])
    && DegreeApart(row[6], row[7], row[8]) && DegreeApart(row[7], row[8], row[9])
  }

  lemma RowMember(before: int, row: seq<nat>, after: int, c: nat)
    requires RowApart(before, row, after) && c < 10
    ensures DegreeApart(if c == 0 then before else row[c - 1], row[c], if c == 9 then after else row[c + 1])
  {
  }

  /** An entry is the cosine in 1024ths, to the nearest. */
  predicate Rounded(entry: nat, cosine: nat) {
    -1_000_000_000 < 2 * (entry * 1_000_000_000 - 1024 * cosine) <= 1_000_000_000
  }

  predicate RowRounded(entries: seq<nat>, cosines: seq<nat>) {
    |entries| == |cosines| == 10 && forall c :: 0 <= c < 10 ==> Rounded(entries[c], cosines[c])
  }

  lemma NearRowsApart(r: nat)
    requires 1 <= r < 5
    ensures RowApart(COSINE[r - 1][9], COSINE[r], COSINE[r + 1][0])
  {
    match r
    case 1 => assert RowApart(COSINE[0][9], COSINE[1], COSINE[2][0]);
    case 2 => assert RowApart(COSINE[1][9], COSINE[2], COSINE[3][0]);
    case 3 => assert RowApart(COSINE[2][9], COSINE[3], COSINE[4][0]);
    case _ => assert RowApart(COSINE[3][9], COSINE[4], COSINE[5][0]);
  }

  lemma FarRowsApart(r: nat)
    requires 5 <= r < 9
    ensures RowApart(COSINE[r - 1][9], COSINE[r], COSINE[r + 1][0])
  {
    match r
    case 5 => assert RowApart(COSINE[4][9], COSINE[5], COSINE[6][0]);
    case 6 => assert RowApart(COSINE[5][9], COSINE[6], COSINE[7][0]);
    case 7 => assert RowApart(COSINE[6][9], COSINE[7], COSINE[8][0]);
    case _ => assert RowApart(COSINE[7][9], COSINE[8], COSINE[9][0]);
  }

  lemma FirstRowApart()
    ensures RowApart(COSINE[0][1], COSINE[0], COSINE[1][0])
  {
  }

  lemma RowsRounded(r: nat)
    requires r < 9
    ensures RowRounded(COS_TABLE[r], COSINE[r])
  {
  }

  lemma Neighbours(rows: seq<seq<nat>>, degrees: nat, r: nat, c: nat)
    requires Shaped(rows) && r < 9 && c < 10 && degrees == 10 * r + c > 0
    ensures Entry(rows, degrees) == rows[r][c]
    ensures Entry(rows, degrees - 1) == if c == 0 then rows[r - 1][9] else rows[r][c - 1]
    ensures Entry(rows, degrees + 1) == if c == 9 then rows[r + 1][0] else rows[r][c + 1]
  {
  }

  lemma TableApart(rows: seq<seq<nat>>, degrees: nat)
    requires Shaped(rows) && 0 < degrees < 90 && RowApart(rows[0][1], rows[0], rows[1][0])
    requires forall r :: 1 <= r < 9 ==> RowApart(rows[r - 1][9], rows[r], rows[r + 1][0])
    ensures DegreeApart(Entry(rows, degrees - 1), Entry(rows, degrees), Entry(rows, degrees + 1))
  {
    var r, c := degrees / 10, degrees % 10;
    Neighbours(rows, degrees, r, c);
    RowMember(if r == 0 then rows[0][1] else rows[r - 1][9], rows[r], rows[r + 1][0], c);
  }

  lemma LawOfCosines(degrees: nat)
    requires 0 < degrees < 90
    ensures Shaped(COSINE)
    ensures DegreeApart(Entry(COSINE, degrees - 1), Entry(COSINE, degrees), Entry(COSINE, degrees + 1))
  {
    FirstRowApart();
    forall r | 1 <= r < 9 ensures RowApart(COSINE[r - 1][9], COSINE[r], COSINE[r + 1][0]) {
      if r < 5 {
        NearRowsApart(r);
      } else {
        FarRowsApart(r);
      }
    }
    TableApart(COSINE, degrees);
  }

  /** Every entry of the table is the nearest to a number that is the cosine of its degree: 1 at the equator,
      a half at 60 degrees, nothing at the pole, and following the law of cosines in between. */
  lemma TableIsTheCosine(degrees: nat)
    requires degrees <= 90
    ensures Shaped(COSINE) && Rounded(Cos(degrees), Entry(COSINE, degrees))
    ensures Entry(COSINE, 0) == 1_000_000_000 && Entry(COSINE, 60) == 500_000_000 && Entry(COSINE, 90) == 0
    ensures 0 < degrees < 90 ==>
              DegreeApart(Entry(COSINE, degrees - 1), Entry(COSINE, degrees), Entry(COSINE, degrees + 1))
  {
    if degrees < 90 {
      RowsRounded(degrees / 10);
      assert Rounded(COS_TABLE[degrees / 10][degrees % 10], COSINE[degrees / 10][degrees % 10]);
    }
    if 0 < degrees < 90 {
      LawOfCosines(degrees);
    }
  }
}
