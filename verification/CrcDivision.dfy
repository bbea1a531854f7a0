/** What the CRC-32 is: the remainder of a division of polynomials over two elements (section 5.5 of the
    PNG specification), against the register of debug/src/protocol.cpp:337-354 that shifts bits. */
module CrcDivision {
  import opened Checksums

  /** A polynomial by its coefficients, highest power first. */
  type Poly = seq<bool>

  function Zeros(n: nat): (p: Poly)
    ensures |p| == n && forall i :: 0 <= i < n ==> !p[i]
  {
    seq(n, _ => false)
  }

  function Add(a: Poly, b: Poly): (sum: Poly)
    requires |a| == |b|
    ensures |sum| == |a| && forall i :: 0 <= i < |a| ==> sum[i] == (a[i] != b[i])
  {
    seq(|a|, i requires 0 <= i < |a| => a[i] != b[i])
  }

  /** The powers of the generator: x^32 + x^26 + ... + x + 1. */
  const POWERS: set<nat> := {32, 26, 23, 22, 16, 12, 11, 10, 8, 7, 5, 4, 2, 1, 0}

  function Generator(): (g: Poly)
    ensures |g| == 33 && forall i :: 0 <= i < 33 ==> g[i] == (32 - i in POWERS)
  {
    seq(33, i requires 0 <= i < 33 => 32 - i in POWERS)
  }

  /** A multiple of the generator, by shifting and adding. */
  function Times(q: Poly): (product: Poly)
    ensures |product| == |q| + 32
  {
    if q == [] then Zeros(32)
    else
      var n := |q| - 1;
      Add(Times(q[..n]) + [false], Zeros(n) + if q[n] then Generator() else Zeros(33))
  }

  /** A message followed by 32 zeros, with the register's first value added to its front: for all ones,
      the first 32 bits inverted. */
  function Dividend(start: Poly, message: Poly): (d: Poly)
    requires |start| == 32
    ensures |d| == |message| + 32
  {
    Add(message + Zeros(32), start + Zeros(|message|))
  }

  /** What is left of the dividend once a multiple of the generator is taken away. */
  ghost predicate Remains(start: Poly, message: Poly, q: Poly, r: Poly) {
    |start| == |r| == 32 && |q| == |message| && Dividend(start, message) == Add(Times(q), Zeros(|q|) + r)
  }

  ghost predicate IsRemainder(start: Poly, message: Poly, r: Poly) {
    exists q :: Remains(start, message, q, r)
  }

  // ---------------------------------------------------------------------------
  // There is one remainder.

  lemma TimesNext(q: Poly, bit: bool)
    ensures Times(q + [bit]) == Add(Times(q) + [false], Zeros(|q|) + if bit then Generator() else Zeros(33))
  {
    var longer := q + [bit];
    assert longer[..|q|] == q && longer[|q|] == bit;
  }

  lemma FrontOfSum(t: Poly, n: nat, g: Poly)
    requires |g| == 33 && |t| == n + 32
    ensures var sum := Add(t + [false], Zeros(n) + g);
            sum[..n] == t[..n] && sum[n] == (t[n] != g[0])
  {
  }

  /** The last coefficient of a factor is first seen in the product at its own place. */
  lemma FrontOfTimes(q: Poly)
    requires q != []
    ensures var n := |q| - 1;
            Times(q)[..n] == Times(q[..n])[..n] && Times(q)[n] == (Times(q[..n])[n] != q[n])
  {
    var n := |q| - 1;
    var bit := q[n];
    assert Times(q) == Add(Times(q[..n]) + [false], Zeros(n) + if bit then Generator() else Zeros(33));
    FrontOfSum(Times(q[..n]), n, if bit then Generator() else Zeros(33));
  }

  lemma {:induction false} FactorsAgree(a: Poly, b: Poly)
    requires |a| == |b| && Times(a)[..|a|] == Times(b)[..|b|]
    ensures a == b
  {
    if a != [] {
      var n := |a| - 1;
      FrontOfTimes(a);
      FrontOfTimes(b);
      assert Times(a[..n])[..n] == Times(a)[..|a|][..n] == Times(b)[..|b|][..n] == Times(b[..n])[..n];
      FactorsAgree(a[..n], b[..n]);
      assert Times(a)[..|a|][n] == Times(b)[..|b|][n];
    }
  }

  /** Two remainders of one dividend are the same. */
  lemma OneRemainder(start: Poly, message: Poly, r: Poly, s: Poly)
    requires IsRemainder(start, message, r) && IsRemainder(start, message, s)
    ensures r == s
  {
    var q :| Remains(start, message, q, r);
    var p :| Remains(start, message, p, s);
    var n, d := |message|, Dividend(start, message);
    assert forall i :: 0 <= i < n ==> d[i] == Times(q)[i] == Times(p)[i];
    assert Times(q)[..n] == Times(p)[..n];
    FactorsAgree(q, p);
    assert forall i :: 0 <= i < 32 ==> d[n + i] == (Times(q)[n + i] != r[i]) && d[n + i] == (Times(p)[n + i] != s[i]);
  }

  // ---------------------------------------------------------------------------
  // One bit of the register is one step of the division.

  function Stepped(r: Poly, bit: bool): (next: Poly)
    requires |r| == 32
    ensures |next| == 32
  {
    if r[0] != bit then Add(r[1..] + [false], Generator()[1..]) else r[1..] + [false]
  }

  lemma StepBalances(r: Poly, bit: bool)
    requires |r| == 32
    ensures Add(r + [false], [bit] + Zeros(32)) ==
            Add(if r[0] != bit then Generator() else Zeros(33), [false] + Stepped(r, bit))
  {
    var left, right := Add(r + [false], [bit] + Zeros(32)),
      Add(if r[0] != bit then Generator() else Zeros(33), [false] + Stepped(r, bit));
    forall i | 0 <= i < 33 ensures left[i] == right[i] {
      if i > 0 {
        assert ([false] + Stepped(r, bit))[i] == Stepped(r, bit)[i - 1];
      }
    }
  }

  lemma DividendNext(start: Poly, message: Poly, bit: bool)
    requires |start| == 32
    ensures Dividend(start, message + [bit]) ==
            Add(Dividend(start, message) + [false], Zeros(|message|) + ([bit] + Zeros(32)))
  {
  }

  /** Taking `g` from the front where `b` was added at the end leaves `rest`. */
  lemma Balances(t: Poly, n: nat, r: Poly, b: Poly, g: Poly, rest: Poly)
    requires |t| == n + |r| && |r| == |b| == |g| == |rest| && Add(r, b) == Add(g, rest)
    ensures Add(Add(t, Zeros(n) + r), Zeros(n) + b) == Add(Add(t, Zeros(n) + g), Zeros(n) + rest)
  {
    AddAtEnd(t, n, r, b);
    AddAtEnd(t, n, g, rest);
  }

  lemma AddThenZero(a: Poly, b: Poly)
    requires |a| == |b|
    ensures Add(a, b) + [false] == Add(a + [false], b + [false])
  {
  }

  lemma StepDivides(start: Poly, message: Poly, q: Poly, r: Poly, bit: bool)
    requires Remains(start, message, q, r)
    ensures Remains(start, message + [bit], q + [r[0] != bit], Stepped(r, bit))
  {
    var n, taken := |q|, if r[0] != bit then Generator() else Zeros(33);
    var t, next := Times(q) + [false], Stepped(r, bit);
    DividendNext(start, message, bit);
    AddThenZero(Times(q), Zeros(n) + r);
    StepBalances(r, bit);
    Balances(t, n, r + [false], [bit] + Zeros(32), taken, [false] + next);
    TimesNext(q, r[0] != bit);
    ZerosJoin(n, r, next);
  }

  lemma ZerosJoin(n: nat, r: Poly, next: Poly)
    ensures Zeros(n) + ([false] + next) == Zeros(n + 1) + next && Zeros(n) + r + [false] == Zeros(n) + (r + [false])
  {
  }

  lemma AddAtEnd(t: Poly, n: nat, a: Poly, b: Poly)
    requires |a| == |b| && |t| == n + |a|
    ensures Add(Add(t, Zeros(n) + a), Zeros(n) + b) == Add(t, Zeros(n) + Add(a, b))
  {
  }

  function Divided(r: Poly, message: Poly): (left: Poly)
    requires |r| == 32
    ensures |left| == 32
  {
    if message == [] then r else Stepped(Divided(r, message[..|message| - 1]), message[|message| - 1])
  }

  lemma {:induction false} DividedRemains(start: Poly, message: Poly)
    requires |start| == 32
    ensures IsRemainder(start, message, Divided(start, message))
  {
    if message == [] {
      assert Dividend(start, []) == Add(Times([]), Zeros(0) + start);
      assert Remains(start, [], [], start);
    } else {
      var front, bit := message[..|message| - 1], message[|message| - 1];
      DividedRemains(start, front);
      var q :| Remains(start, front, q, Divided(start, front));
      StepDivides(start, front, q, Divided(start, front), bit);
      assert front + [bit] == message;
    }
  }

  // ---------------------------------------------------------------------------
  // Registers as polynomials: the lowest bit is the highest power.

  function BitsOf<W>(low: W -> bool, down: W -> W, c: W, n: nat): (p: Poly)
    ensures |p| == n
    decreases n
  {
    if n == 0 then [] else [low(c)] + BitsOf(low, down, down(c), n - 1)
  }

  function Bits(c: bv32, n: nat): (p: Poly)
    ensures |p| == n
  {
    BitsOf(Low, Down, c, n)
  }

  lemma {:induction false} BitsAdd<W(!new)>(low: W -> bool, down: W -> W, x: (W, W) -> W, a: W, b: W, n: nat)
    requires forall d, e :: low(x(d, e)) == (low(d) != low(e)) && down(x(d, e)) == x(down(d), down(e))
    ensures BitsOf(low, down, x(a, b), n) == Add(BitsOf(low, down, a, n), BitsOf(low, down, b, n))
    decreases n
  {
    if n > 0 {
      BitsAdd(low, down, x, down(a), down(b), n - 1);
      AddInFront(low(a), BitsOf(low, down, down(a), n - 1), low(b), BitsOf(low, down, down(b), n - 1));
    }
  }

  lemma XorAdds(a: bv32, b: bv32, n: nat)
    ensures Bits(Xor(a, b), n) == Add(Bits(a, n), Bits(b, n))
  {
    forall d, e ensures Low(Xor(d, e)) == (Low(d) != Low(e)) && Down(Xor(d, e)) == Xor(Down(d), Down(e)) {
      XorSplits(d, e);
    }
    BitsAdd(Low, Down, Xor, a, b, n);
  }

  lemma AddInFront(x: bool, a: Poly, y: bool, b: Poly)
    requires |a| == |b|
    ensures Add([x] + a, [y] + b) == [x != y] + Add(a, b)
  {
  }

  lemma {:induction false} BitAfter(c: bv32, n: nat)
    ensures Bits(c, n + 1) == Bits(c, n) + [Low(High(c, n))]
    decreases n
  {
    if n > 0 {
      BitAfter(c >> 1, n - 1);
      HighOfShift(c, n - 1);
    }
  }

  lemma {:induction false} HighOfShift(c: bv32, n: nat)
    ensures High(c >> 1, n) == High(c, n + 1)
  {
    if n > 0 {
      HighOfShift(c, n - 1);
    }
  }

  lemma {:induction false} HighSplits(c: bv32, m: nat, n: nat)
    ensures High(High(c, m), n) == High(c, m + n)
    decreases n
  {
    if n > 0 {
      HighSplits(c, m, n - 1);
    }
  }

  lemma NothingAbove(c: bv32)
    ensures High(c, 32) == 0
  {
    HighByte(c);
    HighByte(c >> 8);
    HighByte((c >> 8) >> 8);
    HighByte(((c >> 8) >> 8) >> 8);
    HighSplits(c, 8, 8);
    HighSplits(c, 16, 8);
    HighSplits(c, 24, 8);
  }

  lemma ShiftDropsHighest(c: bv32)
    ensures Bits(c >> 1, 32) == Bits(c, 32)[1..] + [false]
  {
    BitAfter(c >> 1, 31);
    HighOfShift(c, 31);
    NothingAbove(c);
  }

  lemma Nibble(c: bv32, d: bv32, n: nat, w: bool, x: bool, y: bool, z: bool)
    requires d == Down(Down(Down(Down(c))))
    requires (c & 1 == 1) == w && (c & 2 == 2) == x && (c & 4 == 4) == y && (c & 8 == 8) == z
    ensures Bits(c, n + 4) == [w, x, y, z] + Bits(d, n)
  {
    LowAfter(c, Down(c), Down(Down(c)), Down(Down(Down(c))));
    FourBits(Low, Down, c, n);
  }

  lemma LowAfter(c: bv32, c1: bv32, c2: bv32, c3: bv32)
    requires c1 == Down(c) && c2 == Down(c1) && c3 == Down(c2)
    ensures Low(c1) == (c & 2 == 2) && Low(c2) == (c & 4 == 4) && Low(c3) == (c & 8 == 8)
  {
  }

  lemma FourBits<W>(low: W -> bool, down: W -> W, c: W, n: nat)
    ensures BitsOf(low, down, c, n + 4) ==
            [low(c), low(down(c)), low(down(down(c))), low(down(down(down(c))))]
              + BitsOf(low, down, down(down(down(down(c)))), n)
  {
    var c2 := down(down(c));
    assert BitsOf(low, down, c, n + 4) == [low(c)] + ([low(down(c))] + BitsOf(low, down, c2, n + 2));
    assert BitsOf(low, down, c2, n + 2) == [low(c2)] + ([low(down(c2))] + BitsOf(low, down, down(down(c2)), n));
  }

  /** The constant of the program is the generator without its highest power, lowest bit first. */
  lemma GeneratorBits()
    ensures Bits(POLYNOMIAL, 32) == Generator()[1..]
  {
    Nibble(0xEDB88320, 0xEDB8832, 28, false, false, false, false);
    Nibble(0xEDB8832, 0xEDB883, 24, false, true, false, false);
    Nibble(0xEDB883, 0xEDB88, 20, true, true, false, false);
    Nibble(0xEDB88, 0xEDB8, 16, false, false, false, true);
    Nibble(0xEDB8, 0xEDB, 12, false, false, false, true);
    Nibble(0xEDB, 0xED, 8, true, true, false, true);
    Nibble(0xED, 0xE, 4, true, false, true, true);
    Nibble(0xE, 0, 0, false, true, true, true);
    TailOfGenerator();
  }

  lemma TailOfGenerator()
    ensures Generator()[1..] ==
            [false, false, false, false] + ([false, true, false, false] + ([true, true, false, false]
            + ([false, false, false, true] + ([false, false, false, true] + ([true, true, false, true]
            + ([true, false, true, true] + ([false, true, true, true] + [])))))))
  {
  }

  // ---------------------------------------------------------------------------
  // The program's register divides.

  /** One bit of a message into the register. */
  function BitStep(c: bv32, bit: bool): bv32 {
    Round(Xor(c, One(bit)))
  }

  lemma BitStepIs(c: bv32, bit: bool)
    ensures BitStep(c, bit) == if Low(c) != bit then Xor(POLYNOMIAL, Down(c)) else Down(c)
  {
    assert bit ==> (c ^ 1) >> 1 == c >> 1 && ((c ^ 1) & 1 == 1) == (c & 1 != 1);
    assert c ^ 0 == c;
  }

  lemma BitDivides(c: bv32, bit: bool)
    ensures Bits(BitStep(c, bit), 32) == Stepped(Bits(c, 32), bit)
  {
    BitStepIs(c, bit);
    ShiftDropsHighest(c);
    if Low(c) != bit {
      XorAdds(POLYNOMIAL, Down(c), 32);
      GeneratorBits();
    }
  }

  function BitSteps(c: bv32, bits: Poly): bv32 {
    Fold(BitStep, c, bits)
  }

  lemma {:induction false} BitsDivide(c: bv32, bits: Poly)
    ensures Bits(BitSteps(c, bits), 32) == Divided(Bits(c, 32), bits)
  {
    if bits != [] {
      var n := |bits| - 1;
      BitsDivide(c, bits[..n]);
      BitDivides(BitSteps(c, bits[..n]), bits[n]);
    }
  }

  function One(bit: bool): bv32 {
    if bit then 1 else 0
  }

  lemma RoundTakes<W>(round: W -> W, x: (W, W) -> W, step: (W, bool) -> W, low: W -> bool, down: W -> W, p: W,
                      s: W, h: W)
    requires round(x(s, h)) == if low(x(s, h)) then x(p, down(x(s, h))) else down(x(s, h))
    requires low(x(s, h)) == (low(s) != low(h)) && down(x(s, h)) == x(down(s), down(h))
    requires step(s, low(h)) == if low(s) != low(h) then x(p, down(s)) else down(s)
    requires x(p, x(down(s), down(h))) == x(x(p, down(s)), down(h))
    ensures round(x(s, h)) == x(step(s, low(h)), down(h))
  {
  }

  /** A round over what is left of a byte takes its lowest bit. */
  lemma RoundTakesBit(s: bv32, h: bv32)
    ensures Round(Xor(s, h)) == Xor(BitStep(s, Low(h)), Down(h))
  {
    RoundIs(Xor(s, h));
    XorSplits(s, h);
    BitStepIs(s, Low(h));
    XorAssociates(POLYNOMIAL, Down(s), Down(h));
    RoundTakes(Round, Xor, BitStep, Low, Down, POLYNOMIAL, s, h);
  }

  lemma {:induction false} RoundsTake<W(!new)>(round: W -> W, x: (W, W) -> W, step: (W, bool) -> W, low: W -> bool,
                                               down: W -> W, c: W, v: W, k: nat)
    requires forall s, h :: round(x(s, h)) == x(step(s, low(h)), down(h))
    ensures Iterate(round, x(c, v), k) == x(Fold(step, c, BitsOf(low, down, v, k)), Iterate(down, v, k))
  {
    if k > 0 {
      RoundsTake(round, x, step, low, down, c, v, k - 1);
      LastBit(low, down, v, k - 1);
      var front := BitsOf(low, down, v, k - 1);
      assert (front + [low(Iterate(down, v, k - 1))])[..k - 1] == front;
    }
  }

  lemma {:induction false} LastBit<W>(low: W -> bool, down: W -> W, v: W, k: nat)
    ensures BitsOf(low, down, v, k + 1) == BitsOf(low, down, v, k) + [low(Iterate(down, v, k))]
    decreases k
  {
    if k > 0 {
      LastBit(low, down, down(v), k - 1);
      IterateFrom(down, v, k - 1);
    }
  }

  lemma {:induction false} IterateFrom<W>(f: W -> W, c: W, n: nat)
    ensures Iterate(f, f(c), n) == Iterate(f, c, n + 1)
  {
    if n > 0 {
      IterateFrom(f, c, n - 1);
    }
  }

  lemma {:induction false} DownIsHigh(v: bv32, n: nat)
    ensures Iterate(Down, v, n) == High(v, n)
  {
    if n > 0 {
      DownIsHigh(v, n - 1);
    }
  }

  lemma EveryRoundTakesBit()
    ensures forall s, h :: Round(Xor(s, h)) == Xor(BitStep(s, Low(h)), Down(h))
  {
    forall s, h ensures Round(Xor(s, h)) == Xor(BitStep(s, Low(h)), Down(h)) {
      RoundTakesBit(s, h);
    }
  }

  lemma BitsTaken(c: bv32, v: bv32, n: nat)
    ensures Iterate(Round, Xor(c, v), n) == Xor(BitSteps(c, Bits(v, n)), Iterate(Down, v, n))
  {
    EveryRoundTakesBit();
    RoundsTake(Round, Xor, BitStep, Low, Down, c, v, n);
  }

  lemma ByteTakesBits(c: bv32, b: byte)
    ensures Feed(c, b) == BitSteps(c, Bits(b as bv32, 8))
  {
    BitsTaken(c, b as bv32, 8);
    DownIsHigh(b as bv32, 8);
    HighByte(b as bv32);
    DataByte(b);
    XorNothing(BitSteps(c, Bits(b as bv32, 8)));
  }

  lemma XorNothing(c: bv32)
    ensures Xor(c, 0) == c
  {
  }

  /** A message as a polynomial: the lowest bit of each byte first. */
  function MessageBits(data: seq<byte>): (bits: Poly)
    ensures |bits| == 8 * |data|
  {
    if data == [] then [] else MessageBits(data[..|data| - 1]) + Bits(data[|data| - 1] as bv32, 8)
  }

  lemma BitStepsConcat(c: bv32, a: Poly, b: Poly)
    ensures BitSteps(c, a + b) == BitSteps(BitSteps(c, a), b)
  {
    FoldConcat(BitStep, c, a, b);
  }

  lemma {:induction false} RegisterTakesBits(c: bv32, data: seq<byte>)
    ensures Register(c, data) == BitSteps(c, MessageBits(data))
  {
    if data != [] {
      var front, last := data[..|data| - 1], data[|data| - 1];
      RegisterTakesBits(c, front);
      ByteTakesBits(Register(c, front), last);
      BitStepsConcat(c, MessageBits(front), Bits(last as bv32, 8));
    }
  }

  /** The CRC-32 of any message, continued from any other, is the inverse of the one remainder of its
      division by the generator. */
  lemma CrcIsRemainder(data: seq<byte>, seed: bv32, r: Poly)
    ensures IsRemainder(Bits(Flip(seed), 32), MessageBits(data), r) <==> r == Bits(Flip(Crc32(data, seed)), 32)
  {
    var start := Flip(seed);
    RegisterTakesBits(start, data);
    BitsDivide(start, MessageBits(data));
    DividedRemains(Bits(start, 32), MessageBits(data));
    FlipFlip(Register(start, data));
    if IsRemainder(Bits(start, 32), MessageBits(data), r) {
      OneRemainder(Bits(start, 32), MessageBits(data), r, Divided(Bits(start, 32), MessageBits(data)));
    }
  }
}
