/** CRC-32 twice over: the bitwise loop of debug/src/protocol.cpp and the table of
    sim/png_writer.cpp, with the polynomial of section 5.5 of the PNG specification; and the
    Adler-32 of section 8.2 of RFC 1950. */
module Checksums {
  type byte = n: nat | n < 256

  const POLYNOMIAL: bv32 := 0xEDB88320

  /** One bit of the register: shift down, and subtract the polynomial if a one fell out. */
  function Round(c: bv32): bv32 {
    if c & 1 == 1 then POLYNOMIAL ^ (c >> 1) else c >> 1
  }

  function Iterate<W>(f: W -> W, c: W, n: nat): W
    decreases n, c
  {
    if n == 0 then c else f(Iterate(f, c, n - 1))
  }

  /** A byte's worth of rounds. */
  function Rounds(c: bv32): bv32 {
    Iterate(Round, c, 8)
  }

  function Fold<W, B>(f: (W, B) -> W, c: W, data: seq<B>): W {
    if data == [] then c else f(Fold(f, c, data[..|data| - 1]), data[|data| - 1])
  }

  lemma {:induction false} FoldConcat<W, B>(f: (W, B) -> W, c: W, a: seq<B>, b: seq<B>)
    ensures Fold(f, c, a + b) == Fold(f, Fold(f, c, a), b)
  {
    if b == [] {
      assert a + b == a;
    } else {
      var d := b[..|b| - 1];
      assert (a + b)[..|a + b| - 1] == a + d;
      FoldConcat(f, c, a, d);
    }
  }

  function Feed(c: bv32, b: byte): bv32 {
    Rounds(Xor(c, b as bv32))
  }

  function Flip(c: bv32): bv32 {
    !c
  }

  /** The register after a message, bit by bit: the reference for both implementations. */
  function Register(c: bv32, data: seq<byte>): bv32 {
    Fold(Feed, c, data)
  }

  /** The CRC-32 of `data`, continued from the CRC-32 `seed` of what came before. */
  function Crc32(data: seq<byte>, seed: bv32): bv32 {
    Flip(Register(Flip(seed), data))
  }

  lemma FlipFlip(c: bv32)
    ensures Flip(Flip(c)) == c
  {
  }

  /** Splitting a message anywhere and continuing from the first part's CRC gives the whole CRC. */
  lemma CrcChains(a: seq<byte>, b: seq<byte>, seed: bv32)
    ensures Crc32(a + b, seed) == Crc32(b, Crc32(a, seed))
  {
    FoldConcat(Feed, Flip(seed), a, b);
    FlipFlip(Register(Flip(seed), a));
  }

  // ---------------------------------------------------------------------------
  // One table look-up is eight rounds: the high bits only shift down while the low byte decides
  // which multiples of the polynomial are taken.

  function Xor(a: bv32, b: bv32): bv32 {
    a ^ b
  }

  function Low(c: bv32): bool {
    c & 1 == 1
  }

  function Down(c: bv32): bv32 {
    c >> 1
  }

  lemma LowSplits(c: bv32, a: bv32, b: bv32)
    requires c == a ^ b
    ensures (c & 1 == 1) == ((a & 1 == 1) != (b & 1 == 1))
  {
    assert c & 1 == (a & 1) ^ (b & 1) && (a & 1 == 0 || a & 1 == 1) && (b & 1 == 0 || b & 1 == 1);
  }

  lemma DownSplits(c: bv32, a: bv32, b: bv32, x: bv32, y: bv32)
    requires c == a ^ b && x == a >> 1 && y == b >> 1
    ensures c >> 1 == x ^ y
  {
  }

  lemma XorTogether(a: bv32, b: bv32, c: bv32, ab: bv32, bc: bv32)
    requires ab == a ^ b && bc == b ^ c
    ensures a ^ bc == ab ^ c
  {
  }

  lemma XorSplits(d: bv32, e: bv32)
    ensures Low(Xor(d, e)) == (Low(d) != Low(e)) && Down(Xor(d, e)) == Xor(Down(d), Down(e))
  {
    LowSplits(Xor(d, e), d, e);
    DownSplits(Xor(d, e), d, e, Down(d), Down(e));
  }

  lemma RoundIs(c: bv32)
    ensures Round(c) == if Low(c) then Xor(POLYNOMIAL, Down(c)) else Down(c)
  {
  }

  lemma XorAssociates(a: bv32, b: bv32, c: bv32)
    ensures Xor(a, Xor(b, c)) == Xor(Xor(a, b), c)
  {
    XorTogether(a, b, c, Xor(a, b), Xor(b, c));
  }

  lemma RoundLeaves<W>(round: W -> W, x: (W, W) -> W, low: W -> bool, down: W -> W, p: W, d: W, h: W)
    requires round(x(d, h)) == if low(x(d, h)) then x(p, down(x(d, h))) else down(x(d, h))
    requires round(d) == if low(d) then x(p, down(d)) else down(d)
    requires low(x(d, h)) == low(d) && down(x(d, h)) == x(down(d), down(h))
    requires x(p, x(down(d), down(h))) == x(x(p, down(d)), down(h))
    ensures round(x(d, h)) == x(round(d), down(h))
  {
  }

  lemma RoundSplits(d: bv32, h: bv32)
    requires !Low(h)
    ensures Round(Xor(d, h)) == Xor(Round(d), Down(h))
  {
    RoundIs(Xor(d, h));
    RoundIs(d);
    XorSplits(d, h);
    XorAssociates(POLYNOMIAL, Down(d), Down(h));
    RoundLeaves(Round, Xor, Low, Down, POLYNOMIAL, d, h);
  }

  lemma {:induction false} IterateSplits<W(!new)>(f: W -> W, x: (W, W) -> W, d: W, high: nat -> W, n: nat)
    requires forall i: nat, e :: i < n ==> f(x(e, high(i))) == x(f(e), high(i + 1))
    ensures Iterate(f, x(d, high(0)), n) == x(Iterate(f, d, n), high(n))
  {
    if n != 0 {
      IterateSplits(f, x, d, high, n - 1);
    }
  }

  function High(h: bv32, i: nat): bv32
    decreases i
  {
    if i == 0 then h else High(h, i - 1) >> 1
  }

  ghost predicate LowClear(h: bv32, n: nat)
    decreases n
  {
    n == 0 || (h & 1 == 0 && LowClear(h >> 1, n - 1))
  }

  lemma {:induction false} HighClear(h: bv32, i: nat, n: nat)
    requires LowClear(h, n) && i < n
    ensures High(h, i) & 1 == 0 && LowClear(High(h, i), n - i)
  {
    if i != 0 {
      HighClear(h, i - 1, n);
    }
  }

  lemma ClearByte(h: bv32)
    requires h & 0xFF == 0
    ensures LowClear(h, 8)
  {
    assert h & 1 == 0 && (h >> 1) & 1 == 0 && ((h >> 1) >> 1) & 1 == 0 && (((h >> 1) >> 1) >> 1) & 1 == 0;
    var g := (((h >> 1) >> 1) >> 1) >> 1;
    assert g & 0xF == 0;
    assert g & 1 == 0 && (g >> 1) & 1 == 0 && ((g >> 1) >> 1) & 1 == 0 && (((g >> 1) >> 1) >> 1) & 1 == 0;
    assert LowClear(g, 4);
  }

  lemma HighByte(h: bv32)
    ensures High(h, 8) == h >> 8
  {
    assert High(h, 8) == ((((((((h >> 1) >> 1) >> 1) >> 1) >> 1) >> 1) >> 1) >> 1);
  }

  lemma SplitByte(c: bv32)
    ensures Xor(c & 0xFF, c & 0xFFFF_FF00) == c
    ensures (c & 0xFFFF_FF00) & 0xFF == 0
    ensures (c & 0xFFFF_FF00) >> 8 == c >> 8
  {
  }

  lemma OneLookup(c: bv32)
    ensures Rounds(c) == Xor(Rounds(c & 0xFF), c >> 8)
  {
    SplitByte(c);
    var h := c & 0xFFFF_FF00;
    ClearByte(h);
    HighByte(h);
    forall i: nat, e | i < 8 ensures Round(Xor(e, High(h, i))) == Xor(Round(e), High(h, i + 1)) {
      HighClear(h, i, 8);
      RoundSplits(e, High(h, i));
    }
    IterateSplits(Round, Xor, c & 0xFF, (i: nat) => High(h, i), 8);
  }

  lemma DataByte(b: byte)
    ensures (b as bv32) >> 8 == 0 && (b as bv8) as bv32 == b as bv32
  {
  }

  lemma ShiftPastByte(crc: bv32, d: bv32)
    requires d >> 8 == 0
    ensures (crc ^ d) >> 8 == crc >> 8
  {
  }

  lemma IndexIsLowByte(c: bv32)
    ensures (((c & 0xFF) as bv8) as nat) as bv8 == (c & 0xFF) as bv8
    ensures ((c & 0xFF) as bv8) as bv32 == c & 0xFF
  {
  }

  /** The table of the PNG specification, Annex D: what eight rounds do to each byte. */
  ghost predicate IsTable(table: seq<bv32>) {
    |table| == 256 && forall n: nat :: n < 256 ==> table[n] == Rounds((n as bv8) as bv32)
  }

  method CrcTable() returns (table: seq<bv32>)
    ensures IsTable(table)
  {
    table := [];
    for n := 0 to 256
      invariant |table| == n
      invariant forall m: nat :: m < n ==> table[m] == Rounds((m as bv8) as bv32)
    {
      var c := TableEntry(n);
      table := table + [c];
    }
  }

  method TableEntry(n: byte) returns (c: bv32)
    ensures c == Rounds((n as bv8) as bv32)
  {
    c := n as bv32;
    DataByte(n);
    for k := 0 to 8
      invariant c == Iterate(Round, (n as bv8) as bv32, k)
    {
      LowestIsBit(c);
      c := if c & 1 != 0 then POLYNOMIAL ^ (c >> 1) else c >> 1;
    }
  }

  lemma LowestIsBit(c: bv32)
    ensures c & 1 == 0 || c & 1 == 1
  {
  }

  lemma LookupFeeds(table: seq<bv32>, crc: bv32, b: byte)
    requires IsTable(table)
    ensures Xor(table[((Xor(crc, b as bv32) & 0xFF) as bv8) as nat], crc >> 8) == Feed(crc, b)
  {
    var c := Xor(crc, b as bv32);
    OneLookup(c);
    IndexIsLowByte(c);
    DataByte(b);
    ShiftPastByte(crc, b as bv32);
  }

  /** The table-driven CRC of sim/png_writer.cpp computes the bitwise one. */
  method Crc32Of(data: seq<byte>) returns (crc: bv32)
    ensures crc == Crc32(data, 0)
  {
    var table := CrcTable();
    crc := 0xFFFF_FFFF;
    for i := 0 to |data|
      invariant crc == Register(0xFFFF_FFFF, data[..i])
    {
      assert data[..i + 1][..i] == data[..i];
      LookupFeeds(table, crc, data[i]);
      crc := Xor(table[((Xor(crc, data[i] as bv32) & 0xFF) as bv8) as nat], crc >> 8);
    }
    assert data[..|data|] == data;
    crc := Xor(crc, 0xFFFF_FFFF);
  }

  lemma MaskedRound(crc: bv32)
    ensures Xor(crc >> 1, POLYNOMIAL & (0 - (crc & 1))) == Round(crc)
  {
    if crc & 1 == 1 {
      Swapped(crc >> 1);
    } else {
      assert crc & 1 == 0;
    }
  }

  lemma Swapped(c: bv32)
    ensures Xor(c, POLYNOMIAL & (0 - 1)) == POLYNOMIAL ^ c
  {
  }

  /** The branch-free bitwise CRC of debug/src/protocol.cpp, which continues from a seed. */
  method Crc32Bitwise(data: seq<byte>, seed: bv32) returns (crc: bv32)
    ensures crc == Crc32(data, seed)
  {
    crc := Flip(seed);
    for i := 0 to |data|
      invariant crc == Register(Flip(seed), data[..i])
    {
      assert data[..i + 1][..i] == data[..i];
      crc := Xor(crc, data[i] as bv32);
      ghost var start := crc;
      for k := 0 to 8
        invariant crc == Iterate(Round, start, k)
      {
        MaskedRound(crc);
        crc := Xor(crc >> 1, POLYNOMIAL & (0 - (crc & 1)));
      }
    }
    assert data[..|data|] == data;
    crc := Flip(crc);
  }

  // ---------------------------------------------------------------------------
  // Adler-32.

  const ADLER_MODULUS: nat := 65521

  function Sum(data: seq<byte>): nat {
    if data == [] then 0 else data[0] + Sum(data[1..])
  }

  /** Each byte counted once for every prefix that contains it, so the first counts most. */
  function WeightedSum(data: seq<byte>): nat {
    if data == [] then 0 else |data| * data[0] + WeightedSum(data[1..])
  }

  /** The two halves of section 8.2 of RFC 1950, in closed form. */
  function AdlerLow(data: seq<byte>): nat {
    (1 + Sum(data)) % 65521
  }

  function AdlerHigh(data: seq<byte>): nat {
    (|data| + WeightedSum(data)) % 65521
  }

  function Adler32(data: seq<byte>): (a: nat)
    ensures a < 0x1_0000_0000
  {
    AdlerHigh(data) * 0x1_0000 + AdlerLow(data)
  }

  lemma OneMore(n: nat, d: nat)
    ensures (n + 1) * d == n * d + d
  {
  }

  /** The first byte of a message and the rest of it. */
  lemma SumsSplit(first: byte, rest: seq<byte>)
    ensures Sum([first] + rest) == first + Sum(rest)
    ensures WeightedSum([first] + rest) == (|rest| + 1) * first + WeightedSum(rest)
  {
    assert ([first] + rest)[1..] == rest;
  }

  lemma {:induction false} SumsAppend(data: seq<byte>, b: byte)
    ensures Sum(data + [b]) == Sum(data) + b
    ensures WeightedSum(data + [b]) == WeightedSum(data) + Sum(data) + b
  {
    if data == [] {
      SumsSplit(b, []);
      assert [] + [b] == [b] + [];
    } else {
      var first, rest := data[0], data[1..];
      SumsAppend(rest, b);
      SumsSplit(first, rest);
      SumsSplit(first, rest + [b]);
      OneMore(|rest| + 1, first);
      assert data == [first] + rest && data + [b] == [first] + (rest + [b]);
    }
  }

  lemma ModAdd(x: nat, y: nat, a: nat, b: nat)
    requires a == x % ADLER_MODULUS && b == y % ADLER_MODULUS
    ensures (a + y) % ADLER_MODULUS == (x + y) % ADLER_MODULUS
    ensures (a + b) % ADLER_MODULUS == (x + y) % ADLER_MODULUS
  {
    ModDrops(x, y, a);
    ModDrops(y, a, b);
  }

  lemma ModDrops(x: nat, y: nat, a: nat)
    requires a == x % ADLER_MODULUS
    ensures (a + y) % ADLER_MODULUS == (x + y) % ADLER_MODULUS
  {
    assert x + y == a + y + ADLER_MODULUS * (x / ADLER_MODULUS);
  }

  lemma AdlerStep(data: seq<byte>, b: byte)
    ensures AdlerLow(data + [b]) == (AdlerLow(data) + b) % ADLER_MODULUS
    ensures AdlerHigh(data + [b]) == (AdlerHigh(data) + AdlerLow(data + [b])) % ADLER_MODULUS
  {
    SumsAppend(data, b);
    var low, high := 1 + Sum(data), |data| + WeightedSum(data);
    ModAdd(low, b, AdlerLow(data), b % ADLER_MODULUS);
    ModAdd(high, low + b, AdlerHigh(data), AdlerLow(data + [b]));
    assert 1 + Sum(data + [b]) == low + b && |data + [b]| + WeightedSum(data + [b]) == high + (low + b);
  }

  /** The running sums of the byte loop are the closed form. */
  method AdlerOf(data: seq<byte>) returns (adler: nat)
    ensures adler == Adler32(data)
  {
    var a, b := 1, 0;
    for i := 0 to |data|
      invariant a == AdlerLow(data[..i]) && b == AdlerHigh(data[..i])
    {
      assert data[..i + 1] == data[..i] + [data[i]];
      AdlerStep(data[..i], data[i]);
      a := (a + data[i]) % ADLER_MODULUS;
      b := (b + a) % ADLER_MODULUS;
    }
    assert data[..|data|] == data;
    adler := b * 0x1_0000 + a;
  }
}
