// Why three wrong symbols never go unnoticed (src/bech32.cpp:39-70): the generator of the
// checksum has three consecutive powers of a primitive element of GF(1024) among its roots.

module Bech32Field {

  // GF(1024) as polynomials over GF(2) in one primitive element e: bit b stands for e^b.
  type Element = bv10

  function Add(x: Element, y: Element): Element {
    x ^ y
  }

  // Multiplication by e, with e^10 = e^9 + e^5 + e^2 + 1.
  function TimesE(x: Element): Element {
    Add(x << 1, Carry(x))
  }

  function Carry(x: Element): Element {
    if x & 0x200 != 0 then 0x225 else 0
  }

  // Multiplication by e^n.
  function Power(n: nat, x: Element): Element {
    if n == 0 then x else TimesE(Power(n - 1, x))
  }

  lemma {:induction false} AddLaws(x: Element, y: Element, z: Element)
    ensures Add(Add(x, y), z) == Add(x, Add(y, z)) && Add(x, y) == Add(y, x) && Add(x, 0) == x
    ensures Add(x, y) == 0 <==> x == y
  {
  }

  lemma {:induction false} AddPairs(a: Element, b: Element, c: Element, d: Element)
    ensures Add(Add(a, b), Add(c, d)) == Add(Add(a, c), Add(b, d))
  {
    hide Add;
    AddLaws(a, b, Add(c, d));
    AddLaws(b, c, d);
    AddLaws(c, b, d);
    AddLaws(a, c, Add(b, d));
  }

  lemma {:induction false} TimesELinear(x: Element, y: Element)
    ensures TimesE(Add(x, y)) == Add(TimesE(x), TimesE(y))
  {
    ShiftLinear(x, y);
    CarryLinear(x, y);
    hide Add, Carry;
    AddPairs(x << 1, y << 1, Carry(x), Carry(y));
  }

  lemma {:induction false} ShiftLinear(x: Element, y: Element)
    ensures Add(x, y) << 1 == Add(x << 1, y << 1)
  {
  }

  lemma {:induction false} CarryLinear(x: Element, y: Element)
    ensures Carry(Add(x, y)) == Add(Carry(x), Carry(y))
  {
    assert (x ^ y) & 0x200 == (x & 0x200) ^ (y & 0x200);
  }

  lemma {:induction false} TimesEKernel(x: Element)
    requires TimesE(x) == 0
    ensures x == 0
  {
  }

  lemma {:induction false} PowerLinear(n: nat, x: Element, y: Element)
    ensures Power(n, Add(x, y)) == Add(Power(n, x), Power(n, y))
  {
    hide TimesE, Add;
    if n > 0 {
      PowerLinear(n - 1, x, y);
      TimesELinear(Power(n - 1, x), Power(n - 1, y));
    }
  }

  lemma {:induction false} PowerOfZero(n: nat)
    ensures Power(n, 0) == 0
  {
    if n > 0 {
      PowerOfZero(n - 1);
    }
  }

  lemma {:induction false} PowerKernel(n: nat, x: Element)
    requires Power(n, x) == 0
    ensures x == 0
  {
    hide TimesE;
    if n > 0 {
      TimesEKernel(Power(n - 1, x));
      PowerKernel(n - 1, x);
    }
  }

  lemma {:induction false} PowerInjective(n: nat, x: Element, y: Element)
    requires Power(n, x) == Power(n, y)
    ensures x == y
  {
    hide Power, Add;
    PowerLinear(n, x, y);
    AddLaws(Power(n, x), Power(n, y), 0);
    PowerKernel(n, Add(x, y));
    AddLaws(x, y, 0);
  }

  lemma {:induction false} PowerSum(m: nat, n: nat, x: Element)
    ensures Power(m + n, x) == Power(m, Power(n, x))
  {
    hide TimesE;
    if m > 0 {
      PowerSum(m - 1, n, x);
    }
  }

  // ---- multiplication by any element ----

  function Pick(y: Element, bit: Element, z: Element): Element {
    if y & bit != 0 then z else 0
  }

  function Mix(y: Element, z0: Element, z1: Element, z2: Element, z3: Element, z4: Element,
               z5: Element, z6: Element, z7: Element, z8: Element, z9: Element): Element {
    Add(Add(Add(Add(Pick(y, 1, z0), Pick(y, 2, z1)), Add(Pick(y, 4, z2), Pick(y, 8, z3))),
            Add(Add(Pick(y, 16, z4), Pick(y, 32, z5)), Add(Pick(y, 64, z6), Pick(y, 128, z7)))),
        Add(Pick(y, 256, z8), Pick(y, 512, z9)))
  }

  function Times(y: Element, x: Element): Element {
    var z1 := TimesE(x);
    var z2 := TimesE(z1);
    var z3 := TimesE(z2);
    var z4 := TimesE(z3);
    var z5 := TimesE(z4);
    var z6 := TimesE(z5);
    var z7 := TimesE(z6);
    var z8 := TimesE(z7);
    Mix(y, x, z1, z2, z3, z4, z5, z6, z7, z8, TimesE(z8))
  }

  lemma {:induction false} PowerPick(n: nat, y: Element, bit: Element, z: Element)
    ensures Power(n, Pick(y, bit, z)) == Pick(y, bit, Power(n, z))
  {
    PowerOfZero(n);
  }

  lemma {:induction false} PowerMix(n: nat, y: Element, z0: Element, z1: Element, z2: Element, z3: Element, z4: Element,
                                    z5: Element, z6: Element, z7: Element, z8: Element, z9: Element)
    ensures Power(n, Mix(y, z0, z1, z2, z3, z4, z5, z6, z7, z8, z9)) ==
            Mix(y, Power(n, z0), Power(n, z1), Power(n, z2), Power(n, z3), Power(n, z4),
                Power(n, z5), Power(n, z6), Power(n, z7), Power(n, z8), Power(n, z9))
  {
    hide Power, Add, Pick;
    PowerPick(n, y, 1, z0);
    PowerPick(n, y, 2, z1);
    PowerPick(n, y, 4, z2);
    PowerPick(n, y, 8, z3);
    PowerPick(n, y, 16, z4);
    PowerPick(n, y, 32, z5);
    PowerPick(n, y, 64, z6);
    PowerPick(n, y, 128, z7);
    PowerPick(n, y, 256, z8);
    PowerPick(n, y, 512, z9);
    var p01, p23 := Add(Pick(y, 1, z0), Pick(y, 2, z1)), Add(Pick(y, 4, z2), Pick(y, 8, z3));
    var p45, p67 := Add(Pick(y, 16, z4), Pick(y, 32, z5)), Add(Pick(y, 64, z6), Pick(y, 128, z7));
    PowerLinear(n, Pick(y, 1, z0), Pick(y, 2, z1));
    PowerLinear(n, Pick(y, 4, z2), Pick(y, 8, z3));
    PowerLinear(n, Pick(y, 16, z4), Pick(y, 32, z5));
    PowerLinear(n, Pick(y, 64, z6), Pick(y, 128, z7));
    PowerLinear(n, Pick(y, 256, z8), Pick(y, 512, z9));
    PowerLinear(n, p01, p23);
    PowerLinear(n, p45, p67);
    PowerLinear(n, Add(p01, p23), Add(p45, p67));
    PowerLinear(n, Add(Add(p01, p23), Add(p45, p67)), Add(Pick(y, 256, z8), Pick(y, 512, z9)));
  }

  lemma {:induction false} TimesOne(x: Element)
    ensures Times(x, 1) == x
  {
    assert TimesE(1) == 2 && TimesE(2) == 4 && TimesE(4) == 8 && TimesE(8) == 16 && TimesE(16) == 32;
    assert TimesE(32) == 64 && TimesE(64) == 128 && TimesE(128) == 256 && TimesE(256) == 512;
    hide TimesE, Pick;
    PickItself(x, 1);
    PickItself(x, 2);
    PickItself(x, 4);
    PickItself(x, 8);
    PickItself(x, 16);
    PickItself(x, 32);
    PickItself(x, 64);
    PickItself(x, 128);
    PickItself(x, 256);
    PickItself(x, 512);
  }

  lemma {:induction false} PickItself(x: Element, bit: Element)
    requires bit in {1, 2, 4, 8, 16, 32, 64, 128, 256, 512}
    ensures Pick(x, bit, bit) == x & bit
  {
  }

  lemma {:induction false} PowerTimesE(n: nat, x: Element)
    ensures Power(n, TimesE(x)) == TimesE(Power(n, x))
  {
    hide TimesE;
    if n > 0 {
      PowerTimesE(n - 1, x);
    }
  }

  lemma {:induction false} PowerTimes(n: nat, y: Element, x: Element)
    ensures Power(n, Times(y, x)) == Times(y, Power(n, x))
  {
    hide TimesE, Power, Mix;
    var z1 := TimesE(x);
    var z2 := TimesE(z1);
    var z3 := TimesE(z2);
    var z4 := TimesE(z3);
    var z5 := TimesE(z4);
    var z6 := TimesE(z5);
    var z7 := TimesE(z6);
    var z8 := TimesE(z7);
    var z9 := TimesE(z8);
    PowerMix(n, y, x, z1, z2, z3, z4, z5, z6, z7, z8, z9);
    PowerTimesE(n, x);
    PowerTimesE(n, z1);
    PowerTimesE(n, z2);
    PowerTimesE(n, z3);
    PowerTimesE(n, z4);
    PowerTimesE(n, z5);
    PowerTimesE(n, z6);
    PowerTimesE(n, z7);
    PowerTimesE(n, z8);
  }

  // Multiplying by e^n takes one multiplication.
  lemma {:induction false} PowerIsTimes(n: nat, x: Element)
    ensures Power(n, x) == Times(x, Power(n, 1))
  {
    hide Power, Times;
    TimesOne(x);
    PowerTimes(n, x, 1);
  }

  lemma {:induction false} PowerOfSum(m: nat, n: nat, y: Element, z: Element)
    requires Power(m, 1) == y && Power(n, 1) == z
    ensures Power(m + n, 1) == Times(z, y)
  {
    hide Power, Times;
    PowerSum(m, n, 1);
    PowerIsTimes(m, z);
  }

  lemma {:induction false} Square(n: nat, y: Element, z: Element)
    requires Power(n, 1) == y && Times(y, y) == z
    ensures Power(2 * n, 1) == z
  {
    hide Power, Times;
    PowerOfSum(n, n, y, y);
  }

  // ---- the order of e ----

  lemma {:induction false} Squares()
    ensures Power(1, 1) == 2 && Power(16, 1) == 0x29 && Power(32, 1) == 0x264 && Power(64, 1) == 0x6a
    ensures Power(256, 1) == 0xc7 && Power(1024, 1) == 2
  {
    assert Power(1, 1) == 2 && Power(8, 1) == 0x100;
    hide Power;
    Square(8, 0x100, 0x29);
    Square(16, 0x29, 0x264);
    Square(32, 0x264, 0x6a);
    Square(64, 0x6a, 0x9a);
    Square(128, 0x9a, 0xc7);
    Square(256, 0xc7, 0x36d);
    Square(512, 0x36d, 2);
  }

  lemma {:induction false} PowerOf(n: nat, m: nat, y: Element)
    requires Power(n + m, 1) == Power(m, y)
    ensures Power(n, 1) == y
  {
    hide Power;
    PowerSum(m, n, 1);
    PowerInjective(m, Power(n, 1), y);
  }

  lemma {:induction false} OrderDivides1023(x: Element)
    ensures Power(1023, x) == x
  {
    Squares();
    assert Power(1, 1) == 2;
    hide Power, Times;
    PowerOf(1023, 1, 1);
    PowerIsTimes(1023, x);
    TimesOne(x);
  }

  lemma {:induction false} Powers33And93()
    ensures Power(33, 1) == 0x2ed && Power(93, 1) == 0xd9
  {
    Squares();
    assert Power(1, 0x132) == 0x264;
    hide Power;
    PowerOfSum(32, 1, 0x264, 2);
    PowerOf(31, 1, 0x132);
    Square(31, 0x132, 0x308);
    PowerOfSum(62, 31, 0x308, 0x132);
  }

  lemma {:induction false} Power341()
    ensures Power(341, 1) == 0x96
  {
    Squares();
    assert Power(5, 1) == 0x20;
    hide Power;
    PowerOfSum(16, 5, 0x29, 0x20);
    PowerOfSum(64, 21, 0x6a, 0x305);
    PowerOfSum(256, 85, 0xc7, 0x1a6);
  }

  lemma {:induction false} OnlyZeroFixed33(x: Element)
    requires Times(x, 0x2ed) == x
    ensures x == 0
  {
  }

  lemma {:induction false} OnlyZeroFixed93(x: Element)
    requires Times(x, 0xd9) == x
    ensures x == 0
  {
  }

  lemma {:induction false} OnlyZeroFixed341(x: Element)
    requires Times(x, 0x96) == x
    ensures x == 0
  {
  }

  // No power that 1023 is a proper multiple of leaves anything but zero in place.
  lemma {:induction false} NotFixed(d: nat, x: Element)
    requires (d == 33 || d == 93 || d == 341) && Power(d, x) == x
    ensures x == 0
  {
    hide Power, Times;
    Powers33And93();
    Power341();
    PowerIsTimes(d, x);
    if d == 33 {
      OnlyZeroFixed33(x);
    } else if d == 93 {
      OnlyZeroFixed93(x);
    } else {
      OnlyZeroFixed341(x);
    }
  }

  lemma {:induction false} FixedByMultiple(d: nat, q: nat, x: Element)
    requires Power(d, x) == x
    ensures Power(q * d, x) == x
  {
    hide Power;
    if q == 0 {
      assert Power(0, x) == x by { PowerNone(x); }
    } else {
      FixedByMultiple(d, q - 1, x);
      PowerSum((q - 1) * d, d, x);
      assert (q - 1) * d + d == q * d;
    }
  }

  lemma {:induction false} PowerNone(x: Element)
    ensures Power(0, x) == x
  {
  }

  lemma {:induction false} Divisors(d: nat, q: nat)
    requires 0 < d < 1023 && q * d == 1023
    ensures d in {1, 3, 11, 31, 33, 93, 341}
  {
    if d <= 31 {
      SmallDivisor(d, q);
    } else {
      if q >= 32 {
        assert q * d >= 32 * 32 by { ProductGrows(q, d); }
      }
      SmallDivisor(q, d);
    }
  }

  lemma {:induction false} ProductGrows(q: nat, d: nat)
    requires q >= 32 && d >= 32
    ensures q * d >= 32 * 32
  {
    assert (q - 32) * d >= 0;
  }

  lemma {:induction false} SmallDivisor(d: nat, q: nat)
    requires 0 < d <= 31 && (q * d == 1023 || d * q == 1023)
    ensures d in {1, 3, 11, 31}
  {
    assert 1023 % d == 0;
  }

  // The powers of e below the 1023rd are all different, whatever they are applied to.
  lemma {:induction false} NoShortCycle(d: nat, x: Element)
    requires 0 < d < 1023 && Power(d, x) == x
    ensures x == 0
    decreases d
  {
    hide Power;
    var q, r := 1023 / d, 1023 % d;
    assert q * d + r == 1023;
    OrderDivides1023(x);
    FixedByMultiple(d, q, x);
    PowerSum(r, q * d, x);
    if r > 0 {
      NoShortCycle(r, x);
    } else {
      Divisors(d, q);
      if d in {1, 3, 11, 33} {
        FixedByMultiple(d, 33 / d, x);
        NotFixed(33, x);
      } else if d in {31, 93} {
        FixedByMultiple(d, 93 / d, x);
        NotFixed(93, x);
      } else {
        NotFixed(341, x);
      }
    }
  }

  lemma {:induction false} Power997()
    ensures Power(997, 1) == 0xd && Power(998, 1) == 0x1a && Power(999, 1) == 0x34
  {
    Squares();
    assert Power(9, 0xd) == 0x294;
    assert Power(9, 0x294) == 0x131;
    assert Power(9, 0x131) == 2;
    assert Power(1, 0xd) == 0x1a && Power(2, 0xd) == 0x34;
    hide Power;
    PowerSum(9, 9, 0xd);
    PowerSum(9, 18, 0xd);
    PowerOf(997, 27, 0xd);
    PowerSum(1, 997, 1);
    PowerSum(2, 997, 1);
  }
}

module Bech32Errors {
  import opened Bech32Checksum
  import opened Bech32Field
  import B = Bech32

  // GF(32) inside GF(1024), by the images of 1, a, a^2, a^3 and a^4.
  function Embed(v: Symbol): Element {
    Add(Add(Add(Add(Bit(v, 1, 0x1), Bit(v, 2, 0x14d)), Bit(v, 4, 0x283)), Bit(v, 8, 0x267)), Bit(v, 16, 0x122))
  }

  function Bit(v: Symbol, bit: Element, z: Element): Element {
    Pick(Up(v), bit, z)
  }

  function Up(v: Symbol): Element {
    v as Element
  }

  lemma {:induction false} UpLinear(v: Symbol, w: Symbol)
    ensures Up(v ^ w) == Add(Up(v), Up(w))
  {
  }

  lemma {:induction false} PickLinear(x: Element, y: Element, bit: Element, z: Element)
    requires bit == 1 || bit == 2 || bit == 4 || bit == 8 || bit == 16
    ensures Pick(Add(x, y), bit, z) == Add(Pick(x, bit, z), Pick(y, bit, z))
  {
    assert (x ^ y) & bit == (x & bit) ^ (y & bit);
  }

  lemma {:induction false} BitLinear(v: Symbol, w: Symbol, bit: Element, z: Element)
    requires bit == 1 || bit == 2 || bit == 4 || bit == 8 || bit == 16
    ensures Bit(v ^ w, bit, z) == Add(Bit(v, bit, z), Bit(w, bit, z))
  {
    hide Up, Pick, Add;
    UpLinear(v, w);
    PickLinear(Up(v), Up(w), bit, z);
  }

  lemma {:induction false} EmbedLinear(v: Symbol, w: Symbol)
    ensures Embed(v ^ w) == Add(Embed(v), Embed(w))
  {
    hide Bit, Add;
    BitLinear(v, w, 1, 0x1);
    BitLinear(v, w, 2, 0x14d);
    BitLinear(v, w, 4, 0x283);
    BitLinear(v, w, 8, 0x267);
    BitLinear(v, w, 16, 0x122);
    var v1, v2, v4, v8, v16 := Bit(v, 1, 0x1), Bit(v, 2, 0x14d), Bit(v, 4, 0x283), Bit(v, 8, 0x267), Bit(v, 16, 0x122);
    var w1, w2, w4, w8, w16 := Bit(w, 1, 0x1), Bit(w, 2, 0x14d), Bit(w, 4, 0x283), Bit(w, 8, 0x267), Bit(w, 16, 0x122);
    AddPairs(v1, w1, v2, w2);
    AddPairs(Add(v1, v2), Add(w1, w2), v4, w4);
    AddPairs(Add(Add(v1, v2), v4), Add(Add(w1, w2), w4), v8, w8);
    AddPairs(Add(Add(Add(v1, v2), v4), v8), Add(Add(Add(w1, w2), w4), w8), v16, w16);
  }

  lemma {:induction false} EmbedKernel(v: Symbol)
    ensures Embed(v) == 0 <==> v == 0
  {
  }

  // ---- the value of a polynomial at e^m ----

  function Horner(m: nat, a5: Element, a4: Element, a3: Element, a2: Element, a1: Element, a0: Element): Element {
    Add(Power(m, Add(Power(m, Add(Power(m, Add(Power(m, Add(Power(m, a5), a4)), a3)), a2)), a1)), a0)
  }

  lemma {:induction false} TurnLinear(m: nat, x: Element, y: Element, a: Element, b: Element)
    ensures Add(Power(m, Add(x, y)), Add(a, b)) == Add(Add(Power(m, x), a), Add(Power(m, y), b))
  {
    hide Power, Add;
    PowerLinear(m, x, y);
    AddPairs(Power(m, x), Power(m, y), a, b);
  }

  lemma {:induction false} HornerLinear(m: nat, a5: Element, a4: Element, a3: Element, a2: Element, a1: Element, a0: Element,
                                        b5: Element, b4: Element, b3: Element, b2: Element, b1: Element, b0: Element)
    ensures Horner(m, Add(a5, b5), Add(a4, b4), Add(a3, b3), Add(a2, b2), Add(a1, b1), Add(a0, b0)) ==
            Add(Horner(m, a5, a4, a3, a2, a1, a0), Horner(m, b5, b4, b3, b2, b1, b0))
  {
    hide Power, Add;
    TurnLinear(m, a5, b5, a4, b4);
    var x4, y4 := Add(Power(m, a5), a4), Add(Power(m, b5), b4);
    TurnLinear(m, x4, y4, a3, b3);
    var x3, y3 := Add(Power(m, x4), a3), Add(Power(m, y4), b3);
    TurnLinear(m, x3, y3, a2, b2);
    var x2, y2 := Add(Power(m, x3), a2), Add(Power(m, y3), b2);
    TurnLinear(m, x2, y2, a1, b1);
    TurnLinear(m, Add(Power(m, x2), a1), Add(Power(m, y2), b1), a0, b0);
  }

  // The six coefficients packed in c, as a polynomial of degree five, at e^m.
  function Value(m: nat, c: bv32): Element {
    Horner(m, Embed(Group(c, 25)), Embed(Group(c, 20)), Embed(Group(c, 15)),
           Embed(Group(c, 10)), Embed(Group(c, 5)), Embed(Group(c, 0)))
  }

  lemma {:induction false} GroupLinear(c: bv32, d: bv32, shift: bv32)
    requires shift in {0, 5, 10, 15, 20, 25}
    ensures Group(Xor(c, d), shift) == Group(c, shift) ^ Group(d, shift)
  {
    assert ((c ^ d) >> shift) & 31 == ((c >> shift) & 31) ^ ((d >> shift) & 31);
  }

  lemma {:induction false} GroupEmbeds(c: bv32, d: bv32, shift: bv32)
    requires shift in {0, 5, 10, 15, 20, 25}
    ensures Embed(Group(Xor(c, d), shift)) == Add(Embed(Group(c, shift)), Embed(Group(d, shift)))
  {
    hide Group, Xor, Embed, Add;
    GroupLinear(c, d, shift);
    EmbedLinear(Group(c, shift), Group(d, shift));
  }

  lemma {:induction false} ValueLinear(m: nat, c: bv32, d: bv32)
    ensures Value(m, Xor(c, d)) == Add(Value(m, c), Value(m, d))
  {
    hide Group, Xor, Embed, Add, Horner;
    GroupEmbeds(c, d, 25);
    GroupEmbeds(c, d, 20);
    GroupEmbeds(c, d, 15);
    GroupEmbeds(c, d, 10);
    GroupEmbeds(c, d, 5);
    GroupEmbeds(c, d, 0);
    HornerLinear(m, Embed(Group(c, 25)), Embed(Group(c, 20)), Embed(Group(c, 15)),
                 Embed(Group(c, 10)), Embed(Group(c, 5)), Embed(Group(c, 0)),
                 Embed(Group(d, 25)), Embed(Group(d, 20)), Embed(Group(d, 15)),
                 Embed(Group(d, 10)), Embed(Group(d, 5)), Embed(Group(d, 0)));
  }

  lemma {:induction false} GroupsOfWide(v: Symbol)
    ensures Group(Wide(v), 0) == v && Group(Wide(v), 5) == Group(Wide(v), 10) == Group(Wide(v), 15) == 0
    ensures Group(Wide(v), 20) == Group(Wide(v), 25) == 0
  {
  }

  lemma {:induction false} GroupsOfShifted(c: bv32)
    requires Is30(c)
    ensures Group(Shifted(c), 25) == Group(c, 20) && Group(Shifted(c), 20) == Group(c, 15)
    ensures Group(Shifted(c), 15) == Group(c, 10) && Group(Shifted(c), 10) == Group(c, 5)
    ensures Group(Shifted(c), 5) == Group(c, 0) && Group(Shifted(c), 0) == 0
    ensures Wide(Group(c, 25)) == Top(c)
  {
  }

  lemma {:induction false} ValueOfWide(m: nat, v: Symbol)
    ensures Value(m, Wide(v)) == Embed(v)
  {
    hide Power, Embed, Group, Add;
    GroupsOfWide(v);
    EmbedKernel(0);
    PowerOfZero(m);
    AddLaws(0, 0, 0);
    AddLaws(0, Embed(v), 0);
    AddLaws(Embed(v), 0, 0);
  }

  lemma {:induction false} HornerTurns(m: nat, a5: Element, a4: Element, a3: Element, a2: Element, a1: Element, a0: Element)
    ensures Power(m, Horner(m, a5, a4, a3, a2, a1, a0)) ==
            Add(Horner(m, a4, a3, a2, a1, a0, 0), Power(6 * m, a5))
  {
    HornerLinear(m, a5, 0, 0, 0, 0, 0, 0, a4, a3, a2, a1, a0);
    AddZeros(a5, a4, a3, a2, a1, a0);
    hide Power, Add;
    PowerOfZero(m);
    PowerLinear(m, Horner(m, a5, 0, 0, 0, 0, 0), Horner(m, 0, a4, a3, a2, a1, a0));
    HornerTop(m, a5);
    AddLaws(0, a4, 0);
    AddLaws(a4, 0, 0);
    var rest := Horner(m, 0, a4, a3, a2, a1, a0);
    AddLaws(Power(m, rest), 0, 0);
    assert Horner(m, a4, a3, a2, a1, a0, 0) == Add(Power(m, rest), 0);
    AddLaws(Power(m, rest), Power(6 * m, a5), 0);
  }

  lemma {:induction false} AddZeros(a5: Element, a4: Element, a3: Element, a2: Element, a1: Element, a0: Element)
    ensures Add(a5, 0) == a5 && Add(0, a4) == a4 && Add(0, a3) == a3 && Add(0, a2) == a2 && Add(0, a1) == a1 && Add(0, a0) == a0
  {
  }

  lemma {:induction false} HornerTop(m: nat, a: Element)
    ensures Power(m, Horner(m, a, 0, 0, 0, 0, 0)) == Power(6 * m, a)
  {
    hide Power, Add;
    AddLaws(Power(m, a), 0, 0);
    PowerSum(m, m, a);
    AddLaws(Power(2 * m, a), 0, 0);
    PowerSum(m, 2 * m, a);
    AddLaws(Power(3 * m, a), 0, 0);
    PowerSum(m, 3 * m, a);
    AddLaws(Power(4 * m, a), 0, 0);
    PowerSum(m, 4 * m, a);
    AddLaws(Power(5 * m, a), 0, 0);
    PowerSum(m, 5 * m, a);
  }

  // ---- three roots of the generator ----

  function HornerTimes(y: Element, a5: Element, a4: Element, a3: Element, a2: Element, a1: Element, a0: Element): Element {
    Add(Times(Add(Times(Add(Times(Add(Times(Add(Times(a5, y), a4), y), a3), y), a2), y), a1), y), a0)
  }

  lemma {:induction false} HornerIsTimes(m: nat, y: Element, a5: Element, a4: Element, a3: Element, a2: Element, a1: Element,
                                         a0: Element)
    requires Power(m, 1) == y
    ensures Horner(m, a5, a4, a3, a2, a1, a0) == HornerTimes(y, a5, a4, a3, a2, a1, a0)
  {
    hide Power, Times, Add;
    PowerIsTimes(m, a5);
    var x4 := Add(Power(m, a5), a4);
    PowerIsTimes(m, x4);
    var x3 := Add(Power(m, x4), a3);
    PowerIsTimes(m, x3);
    var x2 := Add(Power(m, x3), a2);
    PowerIsTimes(m, x2);
    PowerIsTimes(m, Add(Power(m, x2), a1));
  }

  // The generator z x^6 + k(x), at y.
  predicate Vanishes(y: Element, k: bv32, z: Element) {
    Times(HornerTimes(y, z, Embed(Group(k, 25)), Embed(Group(k, 20)), Embed(Group(k, 15)),
                      Embed(Group(k, 10)), Embed(Group(k, 5))), y) == Embed(Group(k, 0))
  }

  lemma {:induction false} VanishesMeans(m: nat, y: Element, k: bv32, z: Element)
    requires Power(m, 1) == y && Vanishes(y, k, z)
    ensures Value(m, k) == Power(6 * m, z)
  {
    hide Power, Times, Add, HornerTimes, Embed, Group;
    var k5, k4, k3, k2, k1, k0 := Embed(Group(k, 25)), Embed(Group(k, 20)), Embed(Group(k, 15)),
                                  Embed(Group(k, 10)), Embed(Group(k, 5)), Embed(Group(k, 0));
    HornerIsTimes(m, y, z, k5, k4, k3, k2, k1);
    PowerIsTimes(m, Horner(m, z, k5, k4, k3, k2, k1));
    HornerTurns(m, z, k5, k4, k3, k2, k1);
    var most := Horner(m, k5, k4, k3, k2, k1, 0);
    var turned := Power(m, Add(Power(m, Add(Power(m, Add(Power(m, Add(Power(m, k5), k4)), k3)), k2)), k1));
    AddLaws(turned, 0, 0);
    hide Horner;
    AddMoves(most, Power(6 * m, z), k0);
  }

  lemma {:induction false} AddMoves(x: Element, y: Element, z: Element)
    requires Add(x, y) == z
    ensures Add(x, z) == y
  {
  }

  lemma {:induction false} EmbedIs1()
    ensures Embed(1) == 0x1
  {
  }

  lemma {:induction false} EmbedIs2()
    ensures Embed(2) == 0x14d
  {
  }

  lemma {:induction false} EmbedIs3()
    ensures Embed(3) == 0x14c
  {
  }

  lemma {:induction false} EmbedIs4()
    ensures Embed(4) == 0x283
  {
  }

  lemma {:induction false} EmbedIs5()
    ensures Embed(5) == 0x282
  {
  }

  lemma {:induction false} EmbedIs6()
    ensures Embed(6) == 0x3ce
  {
  }

  lemma {:induction false} EmbedIs8()
    ensures Embed(8) == 0x267
  {
  }

  lemma {:induction false} EmbedIs10()
    ensures Embed(10) == 0x32a
  {
  }

  lemma {:induction false} EmbedIs12()
    ensures Embed(12) == 0xe4
  {
  }

  lemma {:induction false} EmbedIs13()
    ensures Embed(13) == 0xe5
  {
  }

  lemma {:induction false} EmbedIs15()
    ensures Embed(15) == 0x1a8
  {
  }

  lemma {:induction false} EmbedIs18()
    ensures Embed(18) == 0x6f
  {
  }

  lemma {:induction false} EmbedIs19()
    ensures Embed(19) == 0x6e
  {
  }

  lemma {:induction false} EmbedIs20()
    ensures Embed(20) == 0x3a1
  {
  }

  lemma {:induction false} EmbedIs21()
    ensures Embed(21) == 0x3a0
  {
  }

  lemma {:induction false} EmbedIs22()
    ensures Embed(22) == 0x2ec
  {
  }

  lemma {:induction false} EmbedIs24()
    ensures Embed(24) == 0x345
  {
  }

  lemma {:induction false} EmbedIs26()
    ensures Embed(26) == 0x208
  {
  }

  lemma {:induction false} EmbedIs29()
    ensures Embed(29) == 0x1c7
  {
  }

  lemma {:induction false} EmbedIs30()
    ensures Embed(30) == 0x8b
  {
  }

  // The coefficients of k, in GF(1024).
  ghost predicate Coefficients(k: bv32, k5: Element, k4: Element, k3: Element, k2: Element, k1: Element, k0: Element) {
    && Embed(Group(k, 25)) == k5 && Embed(Group(k, 20)) == k4 && Embed(Group(k, 15)) == k3
    && Embed(Group(k, 10)) == k2 && Embed(Group(k, 5)) == k1 && Embed(Group(k, 0)) == k0
  }

  // Horner's scheme, value by value.
  lemma {:induction false} VanishesBy(y: Element, k: bv32, z: Element,
                                      k5: Element, k4: Element, k3: Element, k2: Element, k1: Element, k0: Element,
                                      h5: Element, h4: Element, h3: Element, h2: Element, h1: Element)
    requires Coefficients(k, k5, k4, k3, k2, k1, k0)
    requires Add(Times(z, y), k5) == h5 && Add(Times(h5, y), k4) == h4 && Add(Times(h4, y), k3) == h3
    requires Add(Times(h3, y), k2) == h2 && Add(Times(h2, y), k1) == h1 && Times(h1, y) == k0
    ensures Vanishes(y, k, z)
  {
    hide Embed, Group, Times, Add;
  }

  lemma {:induction false} Coefficients1()
    ensures Coefficients(0x3b6a57b2, 0x1c7, 0x2ec, 0x3a1, 0x3a0, 0x1c7, 0x6f)
  {
    hide Embed;
    assert Group(0x3b6a57b2, 25) == 29 && Group(0x3b6a57b2, 20) == 22 && Group(0x3b6a57b2, 15) == 20;
    assert Group(0x3b6a57b2, 10) == 21 && Group(0x3b6a57b2, 5) == 29 && Group(0x3b6a57b2, 0) == 18;
    hide Group;
    EmbedIs29();
    EmbedIs22();
    EmbedIs20();
    EmbedIs21();
    EmbedIs18();
  }

  lemma {:induction false} Roots1()
    ensures Vanishes(0xd, 0x3b6a57b2, 0x1) && Vanishes(0x1a, 0x3b6a57b2, 0x1) && Vanishes(0x34, 0x3b6a57b2, 0x1)
  {
    hide Vanishes, Coefficients;
    Coefficients1();
    VanishesBy(0xd, 0x3b6a57b2, 0x1, 0x1c7, 0x2ec, 0x3a1, 0x3a0, 0x1c7, 0x6f, 0x1ca, 0x31, 0x2dc, 0x25d, 0x92);
    VanishesBy(0x1a, 0x3b6a57b2, 0x1, 0x1c7, 0x2ec, 0x3a1, 0x3a0, 0x1c7, 0x6f, 0x1dd, 0x95, 0x339, 0x13, 0x49);
    VanishesBy(0x34, 0x3b6a57b2, 0x1, 0x1c7, 0x2ec, 0x3a1, 0x3a0, 0x1c7, 0x6f, 0x1f3, 0x186, 0x280, 0x10b, 0x336);
  }

  lemma {:induction false} Coefficients2()
    ensures Coefficients(0x26508e6d, 0x6e, 0x282, 0x1, 0x14c, 0x6e, 0xe5)
  {
    hide Embed;
    assert Group(0x26508e6d, 25) == 19 && Group(0x26508e6d, 20) == 5 && Group(0x26508e6d, 15) == 1;
    assert Group(0x26508e6d, 10) == 3 && Group(0x26508e6d, 5) == 19 && Group(0x26508e6d, 0) == 13;
    hide Group;
    EmbedIs19();
    EmbedIs5();
    EmbedIs1();
    EmbedIs3();
    EmbedIs13();
  }

  lemma {:induction false} Roots2()
    ensures Vanishes(0xd, 0x26508e6d, 0x14d) && Vanishes(0x1a, 0x26508e6d, 0x14d) && Vanishes(0x34, 0x26508e6d, 0x14d)
  {
    hide Vanishes, Coefficients;
    Coefficients2();
    VanishesBy(0xd, 0x26508e6d, 0x14d, 0x6e, 0x282, 0x1, 0x14c, 0x6e, 0xe5, 0x235, 0x15f, 0x290, 0x3ad, 0x2e4);
    VanishesBy(0x1a, 0x26508e6d, 0x14d, 0x6e, 0x282, 0x1, 0x14c, 0x6e, 0xe5, 0x2fd, 0x222, 0x78, 0x3d9, 0x172);
    VanishesBy(0x34, 0x26508e6d, 0x14d, 0x6e, 0x282, 0x1, 0x14c, 0x6e, 0xe5, 0x36d, 0x11b, 0x1b0, 0x330, 0xb9);
  }

  lemma {:induction false} Coefficients4()
    ensures Coefficients(0x1ea119fa, 0x1a8, 0x32a, 0x14d, 0x3ce, 0x1a8, 0x208)
  {
    hide Embed;
    assert Group(0x1ea119fa, 25) == 15 && Group(0x1ea119fa, 20) == 10 && Group(0x1ea119fa, 15) == 2;
    assert Group(0x1ea119fa, 10) == 6 && Group(0x1ea119fa, 5) == 15 && Group(0x1ea119fa, 0) == 26;
    hide Group;
    EmbedIs15();
    EmbedIs10();
    EmbedIs2();
    EmbedIs6();
    EmbedIs26();
  }

  lemma {:induction false} Roots4()
    ensures Vanishes(0xd, 0x1ea119fa, 0x283) && Vanishes(0x1a, 0x1ea119fa, 0x283) && Vanishes(0x34, 0x1ea119fa, 0x283)
  {
    hide Vanishes, Coefficients;
    Coefficients4();
    VanishesBy(0xd, 0x1ea119fa, 0x283, 0x1a8, 0x32a, 0x14d, 0x3ce, 0x1a8, 0x208, 0x38e, 0x17, 0x1be, 0x317, 0x285);
    VanishesBy(0x1a, 0x1ea119fa, 0x283, 0x1a8, 0x32a, 0x14d, 0x3ce, 0x1a8, 0x208, 0x3c1, 0x346, 0x2d, 0x2c, 0x250);
    VanishesBy(0x34, 0x1ea119fa, 0x283, 0x1a8, 0x32a, 0x14d, 0x3ce, 0x1a8, 0x208, 0x35f, 0x33e, 0x82, 0x132, 0x128);
  }

  lemma {:induction false} Coefficients8()
    ensures Coefficients(0x3d4233dd, 0x8b, 0x3a1, 0x283, 0xe4, 0x8b, 0x1c7)
  {
    hide Embed;
    assert Group(0x3d4233dd, 25) == 30 && Group(0x3d4233dd, 20) == 20 && Group(0x3d4233dd, 15) == 4;
    assert Group(0x3d4233dd, 10) == 12 && Group(0x3d4233dd, 5) == 30 && Group(0x3d4233dd, 0) == 29;
    hide Group;
    EmbedIs30();
    EmbedIs20();
    EmbedIs4();
    EmbedIs12();
    EmbedIs29();
  }

  lemma {:induction false} Roots8()
    ensures Vanishes(0xd, 0x3d4233dd, 0x267) && Vanishes(0x1a, 0x3d4233dd, 0x267) && Vanishes(0x34, 0x3d4233dd, 0x267)
  {
    hide Vanishes, Coefficients;
    Coefficients8();
    VanishesBy(0xd, 0x3d4233dd, 0x267, 0x8b, 0x3a1, 0x283, 0xe4, 0x8b, 0x1c7, 0xdc, 0xc8, 0x10e, 0x1e8, 0x3ec);
    VanishesBy(0x1a, 0x3d4233dd, 0x267, 0x8b, 0x3a1, 0x283, 0xe4, 0x8b, 0x1c7, 0x25, 0x93, 0x247, 0x30a, 0x1f6);
    VanishesBy(0x34, 0x3d4233dd, 0x267, 0x8b, 0x3a1, 0x283, 0xe4, 0x8b, 0x1c7, 0x1d7, 0xbe, 0x2ea, 0x268, 0xfb);
  }

  lemma {:induction false} Coefficients16()
    ensures Coefficients(0x2a1462b3, 0x3a0, 0x1, 0x267, 0x345, 0x3a0, 0x6e)
  {
    hide Embed;
    assert Group(0x2a1462b3, 25) == 21 && Group(0x2a1462b3, 20) == 1 && Group(0x2a1462b3, 15) == 8;
    assert Group(0x2a1462b3, 10) == 24 && Group(0x2a1462b3, 5) == 21 && Group(0x2a1462b3, 0) == 19;
    hide Group;
    EmbedIs21();
    EmbedIs1();
    EmbedIs8();
    EmbedIs24();
    EmbedIs19();
  }

  lemma {:induction false} Roots16()
    ensures Vanishes(0xd, 0x2a1462b3, 0x122) && Vanishes(0x1a, 0x2a1462b3, 0x122) && Vanishes(0x34, 0x2a1462b3, 0x122)
  {
    hide Vanishes, Coefficients;
    Coefficients16();
    VanishesBy(0xd, 0x2a1462b3, 0x122, 0x3a0, 0x1, 0x267, 0x345, 0x3a0, 0x6e, 0x350, 0x4f, 0x16c, 0xb3, 0x262);
    VanishesBy(0x1a, 0x2a1462b3, 0x122, 0x3a0, 0x1, 0x267, 0x345, 0x3a0, 0x6e, 0x240, 0x3a9, 0x13e, 0x3bd, 0x131);
    VanishesBy(0x34, 0x2a1462b3, 0x122, 0x3a0, 0x1, 0x267, 0x345, 0x3a0, 0x6e, 0x60, 0x1ee, 0x309, 0x1e3, 0x38a);
  }

  ghost predicate IsRoot(m: nat) {
    && Value(m, 0x3b6a57b2) == Power(6 * m, 0x1)
    && Value(m, 0x26508e6d) == Power(6 * m, 0x14d)
    && Value(m, 0x1ea119fa) == Power(6 * m, 0x283)
    && Value(m, 0x3d4233dd) == Power(6 * m, 0x267)
    && Value(m, 0x2a1462b3) == Power(6 * m, 0x122)
  }

  lemma {:induction false} Roots(m: nat)
    requires m == 997 || m == 998 || m == 999
    ensures IsRoot(m)
  {
    hide Power, Vanishes, Value;
    Power997();
    Roots1();
    Roots2();
    Roots4();
    Roots8();
    Roots16();
    var y := Power(m, 1);
    VanishesMeans(m, y, 0x3b6a57b2, 0x1);
    VanishesMeans(m, y, 0x26508e6d, 0x14d);
    VanishesMeans(m, y, 0x1ea119fa, 0x283);
    VanishesMeans(m, y, 0x3d4233dd, 0x267);
    VanishesMeans(m, y, 0x2a1462b3, 0x122);
  }

  lemma {:induction false} ValueOfZero(m: nat)
    ensures Value(m, 0) == 0
  {
    hide Value, Embed;
    assert Wide(0) == 0;
    ValueOfWide(m, 0);
    EmbedKernel(0);
  }

  // One bit, as a 32-bit and as a 10-bit number.
  predicate SameBit(wide: bv32, bit: Element) {
    (wide == 1 && bit == 1) || (wide == 2 && bit == 2) || (wide == 4 && bit == 4) || (wide == 8 && bit == 8) ||
    (wide == 16 && bit == 16)
  }

  lemma {:induction false} BitIsSet(t: Symbol, wide: bv32, bit: Element)
    requires SameBit(wide, bit)
    ensures Wide(t) & wide != 0 <==> Up(t) & bit != 0
  {
  }

  lemma {:induction false} TermAt(m: nat, t: Symbol, wide: bv32, bit: Element, k: bv32, z: Element)
    requires SameBit(wide, bit) && Value(m, k) == Power(6 * m, z)
    ensures Value(m, Term(Wide(t), wide, k)) == Power(6 * m, Bit(t, bit, z))
  {
    hide Value, Power, Wide, Up;
    BitIsSet(t, wide, bit);
    ValueOfZero(m);
    PowerOfZero(6 * m);
  }

  // What PolyMod feeds back is what leaves at the top, reduced by the generator.
  lemma {:induction false} FeedbackAt(m: nat, t: Symbol)
    requires IsRoot(m)
    ensures Value(m, Feedback(Wide(t))) == Power(6 * m, Embed(t))
  {
    hide Value, Power, Wide, Term, Bit, Xor, Add;
    TermAt(m, t, 1, 1, 0x3b6a57b2, 0x1);
    TermAt(m, t, 2, 2, 0x26508e6d, 0x14d);
    TermAt(m, t, 4, 4, 0x1ea119fa, 0x283);
    TermAt(m, t, 8, 8, 0x3d4233dd, 0x267);
    TermAt(m, t, 16, 16, 0x2a1462b3, 0x122);
    hide IsRoot;
    var w := Wide(t);
    var k1, k2, k4, k8, k16 := Term(w, 1, 0x3b6a57b2), Term(w, 2, 0x26508e6d), Term(w, 4, 0x1ea119fa),
                               Term(w, 8, 0x3d4233dd), Term(w, 16, 0x2a1462b3);
    ValueLinear(m, k1, k2);
    ValueLinear(m, Xor(k1, k2), k4);
    ValueLinear(m, Xor(Xor(k1, k2), k4), k8);
    ValueLinear(m, Xor(Xor(Xor(k1, k2), k4), k8), k16);
    var z1, z2, z4, z8, z16 := Bit(t, 1, 0x1), Bit(t, 2, 0x14d), Bit(t, 4, 0x283), Bit(t, 8, 0x267), Bit(t, 16, 0x122);
    PowerLinear(6 * m, z1, z2);
    PowerLinear(6 * m, Add(z1, z2), z4);
    PowerLinear(6 * m, Add(Add(z1, z2), z4), z8);
    PowerLinear(6 * m, Add(Add(Add(z1, z2), z4), z8), z16);
  }

  // A step multiplies by e^m and adds the symbol.
  lemma {:induction false} ValueOfStep(m: nat, c: bv32, v: Symbol)
    requires IsRoot(m) && Is30(c)
    ensures Value(m, Step(c, v)) == Add(Power(m, Value(m, c)), Embed(v))
  {
    var t := Group(c, 25);
    FeedbackAt(m, t);
    GroupsOfShifted(c);
    ValueLinear(m, Xor(Shifted(c), Wide(v)), Feedback(Top(c)));
    ValueLinear(m, Shifted(c), Wide(v));
    ValueOfWide(m, v);
    EmbedKernel(0);
    hide IsRoot, Is30, Embed, Group, Shifted, Wide, Feedback, Xor, Top, Add, Power, Horner;
    HornerTurns(m, Embed(t), Embed(Group(c, 20)), Embed(Group(c, 15)), Embed(Group(c, 10)), Embed(Group(c, 5)),
                Embed(Group(c, 0)));
    var x, y, z := Value(m, Shifted(c)), Embed(v), Power(6 * m, Embed(t));
    AddLaws(x, y, z);
    AddLaws(y, z, 0);
    AddLaws(x, z, y);
  }

  // ---- sequences with at most three symbols that are not zero ----

  // What the symbol at i adds to the value.
  ghost function Share(m: nat, d: seq<Symbol>, i: nat): Element {
    if i < |d| then Power(m * (|d| - 1 - i), Embed(d[i])) else 0
  }

  ghost function Last(d: seq<Symbol>, i: nat): Element {
    if i == |d| - 1 then Embed(d[i]) else 0
  }

  lemma {:induction false} OneTurnMore(m: nat, k: nat)
    ensures m * (k + 1) == m + m * k
  {
  }

  lemma {:induction false} ShareTurns(m: nat, d: seq<Symbol>, i: nat)
    requires d != []
    ensures Share(m, d, i) == Add(Power(m, Share(m, d[..|d| - 1], i)), Last(d, i))
  {
    hide Power, Embed, Add;
    var n := |d| - 1;
    PowerOfZero(m);
    if i < n {
      OneTurnMore(m, n - 1 - i);
      PowerSum(m, m * (n - 1 - i), Embed(d[i]));
      AddLaws(Share(m, d, i), 0, 0);
    } else if i == n {
      PowerNone(Embed(d[i]));
      AddLaws(Embed(d[i]), 0, 0);
      AddLaws(0, Embed(d[i]), 0);
    } else {
      AddLaws(0, 0, 0);
    }
  }

  ghost predicate ZeroElsewhere(d: seq<Symbol>, i: nat, j: nat, k: nat) {
    forall p :: 0 <= p < |d| && p != i && p != j && p != k ==> d[p] == 0
  }

  lemma {:induction false} LastIsOne(d: seq<Symbol>, i: nat, j: nat, k: nat)
    requires d != [] && i < j < k && ZeroElsewhere(d, i, j, k)
    ensures Embed(d[|d| - 1]) == Add(Add(Last(d, i), Last(d, j)), Last(d, k))
  {
    hide Embed, Add;
    EmbedKernel(0);
    var x := Embed(d[|d| - 1]);
    AddLaws(x, 0, 0);
    AddLaws(0, x, 0);
    AddLaws(0, 0, 0);
  }

  lemma {:induction false} ValueOfSparse(m: nat, d: seq<Symbol>, i: nat, j: nat, k: nat)
    requires IsRoot(m) && i < j < k && ZeroElsewhere(d, i, j, k)
    ensures Value(m, PolyFrom(0, d)) == Add(Add(Share(m, d, i), Share(m, d, j)), Share(m, d, k))
    decreases |d|
  {
    hide IsRoot, Value, Add, Power, Embed, Step;
    if d == [] {
      ValueOfZero(m);
      AddLaws(0, 0, 0);
    } else {
      var n := |d| - 1;
      var d' := d[..n];
      ValueOfSparse(m, d', i, j, k);
      PolyIs30(0, d');
      ValueOfStep(m, PolyFrom(0, d'), d[n]);
      LastIsOne(d, i, j, k);
      ShareTurns(m, d, i);
      ShareTurns(m, d, j);
      ShareTurns(m, d, k);
      hide Share, Last, ZeroElsewhere, PolyFrom;
      TurnLinear(m, Add(Share(m, d', i), Share(m, d', j)), Share(m, d', k), Add(Last(d, i), Last(d, j)), Last(d, k));
      TurnLinear(m, Share(m, d', i), Share(m, d', j), Last(d, i), Last(d, j));
    }
  }

  lemma {:induction false} SumOfThree(x: Element, y: Element, z: Element)
    requires Add(Add(x, y), z) == 0
    ensures Add(x, y) == z
  {
    hide Add;
    AddLaws(Add(x, y), z, 0);
  }

  // With x + y = z, the terms e^c z of the next sum cancel.
  lemma {:induction false} Eliminate(a: nat, b: nat, c: nat, x: Element, y: Element, z: Element)
    requires Add(x, y) == z && Add(Power(a, x), Power(b, y)) == Power(c, z)
    ensures Add(Power(a, x), Power(c, x)) == Add(Power(b, y), Power(c, y))
  {
    hide Power, Add;
    PowerLinear(c, x, y);
    var p, q, r, t := Power(a, x), Power(b, y), Power(c, x), Power(c, y);
    AddLaws(Add(p, q), Add(r, t), 0);
    AddPairs(p, q, r, t);
    AddLaws(Add(p, r), Add(q, t), 0);
  }

  lemma {:induction false} PowersApart(a: nat, b: nat, x: Element)
    requires b < a < b + 1023 && Power(a, x) == Power(b, x)
    ensures x == 0
  {
    hide Power;
    PowerSum(b, a - b, x);
    PowerInjective(b, Power(a - b, x), x);
    NoShortCycle(a - b, x);
  }

  lemma {:induction false} TwoPowers(a: nat, b: nat, x: Element)
    ensures Power(2 * a, x) == Power(a, Power(a, x)) && Power(a, Power(b, x)) == Power(b, Power(a, x))
  {
    hide Power;
    PowerSum(a, a, x);
    PowerSum(a, b, x);
    PowerSum(b, a, x);
  }

  // A Vandermonde system of three equations.
  lemma {:induction false} Vandermonde(a: nat, b: nat, c: nat, x: Element, y: Element, z: Element)
    requires c < b < a < c + 1023
    requires Add(x, y) == z
    requires Add(Power(a, x), Power(b, y)) == Power(c, z)
    requires Add(Power(2 * a, x), Power(2 * b, y)) == Power(2 * c, z)
    ensures x == 0
  {
    hide Power, Add;
    Eliminate(a, b, c, x, y, z);
    var w := Add(Power(a, x), Power(c, x));
    TwoPowers(a, c, x);
    TwoPowers(b, c, y);
    TwoPowers(c, c, z);
    Eliminate(a, b, c, Power(a, x), Power(b, y), Power(c, z));
    PowerLinear(a, Power(a, x), Power(c, x));
    PowerLinear(b, Power(b, y), Power(c, y));
    PowersApart(a, b, w);
    AddLaws(Power(a, x), Power(c, x), 0);
    PowersApart(a, c, x);
  }

  lemma {:induction false} NextPower(a: nat, x: Element)
    ensures Power(998 * a, x) == Power(a, Power(997 * a, x)) && Power(999 * a, x) == Power(2 * a, Power(997 * a, x))
  {
    hide Power;
    PowerSum(a, 997 * a, x);
    PowerSum(2 * a, 997 * a, x);
  }

  lemma {:induction false} SparseShares(m: nat, d: seq<Symbol>, i: nat, j: nat, k: nat)
    requires m == 997 || m == 998 || m == 999
    requires i < j < k < |d| && ZeroElsewhere(d, i, j, k) && PolyFrom(0, d) == 0
    ensures Add(Share(m, d, i), Share(m, d, j)) == Share(m, d, k)
  {
    hide IsRoot, Value, Share, Add, PolyFrom, ZeroElsewhere;
    Roots(m);
    ValueOfSparse(m, d, i, j, k);
    ValueOfZero(m);
    SumOfThree(Share(m, d, i), Share(m, d, j), Share(m, d, k));
  }

  lemma {:induction false} SparseIsZero(d: seq<Symbol>, i: nat, j: nat, k: nat)
    requires i < j < k < |d| && k - i < 1023
    requires ZeroElsewhere(d, i, j, k) && PolyFrom(0, d) == 0
    ensures d[i] == 0
  {
    SparseShares(997, d, i, j, k);
    SparseShares(998, d, i, j, k);
    SparseShares(999, d, i, j, k);
    hide Power, Embed, Add, PolyFrom, ZeroElsewhere;
    var a, b, c := |d| - 1 - i, |d| - 1 - j, |d| - 1 - k;
    var x, y, z := Power(997 * a, Embed(d[i])), Power(997 * b, Embed(d[j])), Power(997 * c, Embed(d[k]));
    NextPower(a, Embed(d[i]));
    NextPower(b, Embed(d[j]));
    NextPower(c, Embed(d[k]));
    Vandermonde(a, b, c, x, y, z);
    PowerKernel(997 * a, Embed(d[i]));
    EmbedKernel(d[i]);
  }

  // ---- up to three errors ----

  ghost function Differences<T>(s: seq<T>, t: seq<T>): set<nat>
    requires |s| == |t|
  {
    set p: nat | p < |s| && s[p] != t[p]
  }

  ghost predicate Within(places: set<nat>, window: nat) {
    forall p, q :: p in places && q in places ==> q - p < window
  }

  lemma {:induction false} First(places: set<nat>) returns (i: nat)
    requires places != {}
    ensures i in places && forall p :: p in places ==> i <= p
    decreases |places|
  {
    var x :| x in places;
    var rest := places - {x};
    i := x;
    if rest != {} {
      var m := First(rest);
      i := if m < x then m else x;
      forall p | p in places
        ensures i <= p
      {
        assert p == x || p in rest;
      }
    } else {
      assert places == {x};
    }
  }

  // Two further places behind i that cover what is left.
  lemma {:induction false} TwoMore(rest: set<nat>, i: nat, n: nat) returns (j: nat, k: nat)
    requires i < n && |rest| <= 2 && forall p :: p in rest ==> i < p < n && p < i + 1023
    ensures i < j < k < n + 2 && k < i + 1023 && rest <= {j, k}
  {
    if rest == {} {
      return i + 1, i + 2;
    }
    j := First(rest);
    var more := rest - {j};
    if more == {} {
      if j == i + 1 {
        k := i + 2;
      } else {
        j, k := i + 1, j;
      }
    } else {
      k := First(more);
      assert |more - {k}| == 0;
    }
  }

  function Difference(s: seq<Symbol>, t: seq<Symbol>): (d: seq<Symbol>)
    requires |s| == |t|
    ensures |d| == |s| && forall p :: 0 <= p < |d| ==> (d[p] == 0 <==> s[p] == t[p])
  {
    seq(|s|, p requires 0 <= p < |s| => s[p] ^ t[p])
  }

  lemma {:induction false} SameChecksum(s: seq<Symbol>, t: seq<Symbol>)
    requires |s| == |t| && PolyFrom(1, s) == PolyFrom(1, t)
    ensures PolyFrom(0, Difference(s, t) + [0, 0]) == 0
  {
    var d := Difference(s, t);
    assert Xor(1, 1) == 0;
    PolyLinear(1, 1, s, t, d);
    XorZero(PolyFrom(1, s), PolyFrom(1, t));
    PolyAppend(0, d, [0, 0]);
    PolyOfZeros();
  }

  lemma {:induction false} PolyOfZeros()
    ensures PolyFrom(0, [0, 0]) == 0
  {
    assert Step(0, 0) == 0;
    hide Step;
    assert [0, 0][..1] == [0] && PolyFrom(0, [0]) == 0;
  }

  // One to three wrong symbols in a window of 1023 always change the checksum.
  lemma {:induction false} ThreeErrorsShow(s: seq<Symbol>, t: seq<Symbol>)
    requires |s| == |t| && s != t
    requires |Differences(s, t)| <= 3 && Within(Differences(s, t), 1023)
    ensures PolyFrom(1, s) != PolyFrom(1, t)
  {
    hide PolyFrom;
    var places := Differences(s, t);
    var p: nat :| p < |s| && s[p] != t[p];
    assert p in places;
    var i := First(places);
    var j, k := TwoMore(places - {i}, i, |s|);
    if PolyFrom(1, s) == PolyFrom(1, t) {
      SameChecksum(s, t);
      var d := Difference(s, t) + [0, 0];
      forall q: nat | q < |d| && q != i && q != j && q != k
        ensures d[q] == 0
      {
        assert q !in places - {i};
      }
      SparseIsZero(d, i, j, k);
    }
  }

  // ---- strings ----

  lemma {:induction false} Moved(a: set<nat>, b: set<nat>, shift: int)
    requires forall q :: q in b ==> q - shift in a
    ensures |b| <= |a|
    decreases |b|
  {
    if q :| q in b {
      Moved(a - {q - shift}, b - {q}, shift);
    }
  }

  lemma {:induction false} SymbolDiffers(str: string, str': string, pos: nat, i: nat)
    requires |str| == |str'| && i < |str| - pos - 1 && B.DataOk(str[pos + 1..]) && B.DataOk(str'[pos + 1..])
    ensures B.Values(str[pos + 1..])[i] == B.Values(str'[pos + 1..])[i] <==>
            B.Lowered(str)[pos + 1 + i] == B.Lowered(str')[pos + 1 + i]
  {
    hide B.RevOf, B.CharOf;
    B.CharOfRev(str[pos + 1..][i]);
    B.CharOfRev(str'[pos + 1..][i]);
    B.RevOfChar(B.Values(str[pos + 1..])[i]);
    B.RevOfChar(B.Values(str'[pos + 1..])[i]);
  }

  // A string that Decode accepts has none beside it, with the same separator and prefix,
  // that differs in one to three characters and is accepted as well.
  lemma {:induction false} ErrorsAreDetected(str: string, str': string, pos: nat)
    requires B.Decodable(str) && B.LastOne(str, pos) && |str'| == |str| && B.LastOne(str', pos)
    requires B.Lowered(str[..pos]) == B.Lowered(str'[..pos])
    requires 1 <= |Differences(B.Lowered(str), B.Lowered(str'))| <= 3
    ensures !B.Decodable(str')
  {
    hide B.RevOf, B.CharOf, PolyFrom, B.ExpandHRP, B.CharsOk;
    B.OnlyLastOne(str, pos);
    B.OnlyLastOne(str', pos);
    if B.DecodableAt(str', pos) {
      SymbolsDiffer(str, str', pos);
      var e := B.ExpandHRP(B.Lowered(str[..pos]));
      ThreeErrorsShow(e + B.Values(str[pos + 1..]), e + B.Values(str'[pos + 1..]));
    }
  }

  lemma {:induction false} SymbolsDiffer(str: string, str': string, pos: nat)
    requires |str'| == |str| && pos < |str| <= 90 && str[pos] == str'[pos]
    requires B.DataOk(str[pos + 1..]) && B.DataOk(str'[pos + 1..])
    requires B.Lowered(str[..pos]) == B.Lowered(str'[..pos])
    requires 1 <= |Differences(B.Lowered(str), B.Lowered(str'))| <= 3
    ensures var e := B.ExpandHRP(B.Lowered(str[..pos]));
            var s, t := e + B.Values(str[pos + 1..]), e + B.Values(str'[pos + 1..]);
            s != t && |Differences(s, t)| <= 3 && Within(Differences(s, t), 1023)
  {
    hide B.RevOf, B.CharOf, B.ExpandHRP, B.DataOk;
    var e := B.ExpandHRP(B.Lowered(str[..pos]));
    var v, w := B.Values(str[pos + 1..]), B.Values(str'[pos + 1..]);
    var chars, symbols := Differences(B.Lowered(str), B.Lowered(str')), Differences(e + v, e + w);
    forall i: nat | i < |v|
      ensures v[i] == w[i] <==> pos + 1 + i !in chars
    {
      SymbolDiffers(str, str', pos, i);
    }
    hide B.Values;
    forall q | q in symbols
      ensures |e| <= q && q - (|e| - pos - 1) in chars
    {
      assert (e + v)[q] != (e + w)[q];
      assert v[q - |e|] != w[q - |e|];
    }
    Moved(chars, symbols, |e| - pos - 1);
    forall q: nat | q < pos
      ensures q !in chars
    {
      assert B.Lowered(str[..pos])[q] == B.Lowered(str'[..pos])[q];
    }
    var p :| p in chars;
    assert (e + v)[|e| + p - pos - 1] != (e + w)[|e| + p - pos - 1];
  }

  // ---- errors in the prefix ----

  // Where two prefixes differ in the high bits, and where in the low bits, of their characters.
  ghost function HighDiffs(a: string, b: string): set<nat> {
    set i: nat | i < |a| && i < |b| && a[i] as int / 32 != b[i] as int / 32
  }

  ghost function LowDiffs(a: string, b: string): set<nat> {
    set i: nat | i < |a| && i < |b| && a[i] as int % 32 != b[i] as int % 32
  }

  lemma {:induction false} SymbolInjective(x: int, y: int)
    requires 0 <= x < 32 && 0 <= y < 32
    ensures x as Symbol == y as Symbol <==> x == y
  {
    assert (x as Symbol) as int == x && (y as Symbol) as int == y;
  }

  ghost predicate Ascii(a: string) {
    forall i :: 0 <= i < |a| ==> a[i] as int < 128
  }

  // The checksum sees every one of these differences.
  lemma {:induction false} ExpandDiffers(a: string, b: string, q: nat)
    requires |a| == |b| && Ascii(a) && Ascii(b) && q < 2 * |a| + 1
    ensures |B.ExpandHRP(a)| == |B.ExpandHRP(b)| == 2 * |a| + 1
    ensures q < |a| ==> (B.ExpandHRP(a)[q] != B.ExpandHRP(b)[q] <==> q in HighDiffs(a, b))
    ensures q == |a| ==> B.ExpandHRP(a)[q] == B.ExpandHRP(b)[q]
    ensures q > |a| ==> (B.ExpandHRP(a)[q] != B.ExpandHRP(b)[q] <==> q - |a| - 1 in LowDiffs(a, b))
  {
    ExpandedAt(a, q);
    ExpandedAt(b, q);
    hide B.ExpandHRP, HighBits, LowBits;
    var n := |a|;
    if q < n {
      BitsDiffer(a[q], b[q]);
    } else if q > n {
      BitsDiffer(a[q - n - 1], b[q - n - 1]);
    }
  }

  function HighBits(c: char): Symbol {
    (c as int / 32 % 8) as Symbol
  }

  function LowBits(c: char): Symbol {
    (c as int % 32) as Symbol
  }

  lemma {:induction false} ExpandedAt(a: string, q: nat)
    requires q < 2 * |a| + 1
    ensures |B.ExpandHRP(a)| == 2 * |a| + 1
    ensures B.ExpandHRP(a)[q] == if q < |a| then HighBits(a[q]) else if q == |a| then 0 else LowBits(a[q - |a| - 1])
  {
  }

  lemma {:induction false} BitsDiffer(c: char, d: char)
    requires c as int < 128 && d as int < 128
    ensures HighBits(c) != HighBits(d) <==> c as int / 32 != d as int / 32
    ensures LowBits(c) != LowBits(d) <==> c as int % 32 != d as int % 32
  {
    SymbolInjective(c as int / 32 % 8, d as int / 32 % 8);
    SymbolInjective(c as int % 32, d as int % 32);
  }

  // Beside a string that Decode accepts, none with the separator at the same place is accepted
  // that differs from it in one to three places: the high bits of a prefix character, the low bits
  // of one, or a character behind the separator.
  lemma {:induction false} PrefixErrorsAreDetected(str: string, str': string, pos: nat)
    requires B.Decodable(str) && B.LastOne(str, pos) && |str'| == |str| && B.LastOne(str', pos)
    requires var a, b := B.Lowered(str[..pos]), B.Lowered(str'[..pos]);
             1 <= |HighDiffs(a, b)| + |LowDiffs(a, b)| + |Differences(B.Lowered(str[pos + 1..]), B.Lowered(str'[pos + 1..]))| <= 3
    ensures !B.Decodable(str')
  {
    hide B.RevOf, B.CharOf, PolyFrom, B.ExpandHRP;
    B.OnlyLastOne(str, pos);
    B.OnlyLastOne(str', pos);
    if B.Decodable(str') {
      LoweredAscii(str, pos);
      LoweredAscii(str', pos);
      hide B.CharsOk;
      AllDiffer(str, str', pos);
      ThreeErrorsShow(B.ExpandHRP(B.Lowered(str[..pos])) + B.Values(str[pos + 1..]),
                      B.ExpandHRP(B.Lowered(str'[..pos])) + B.Values(str'[pos + 1..]));
    }
  }

  lemma {:induction false} LoweredAscii(str: string, pos: nat)
    requires B.CharsOk(str) && pos <= |str|
    ensures Ascii(B.Lowered(str[..pos]))
  {
  }

  lemma {:induction false} AllDiffer(str: string, str': string, pos: nat)
    requires |str'| == |str| && pos < |str| <= 90 && B.DataOk(str[pos + 1..]) && B.DataOk(str'[pos + 1..])
    requires Ascii(B.Lowered(str[..pos])) && Ascii(B.Lowered(str'[..pos]))
    requires var a, b := B.Lowered(str[..pos]), B.Lowered(str'[..pos]);
             1 <= |HighDiffs(a, b)| + |LowDiffs(a, b)| + |Differences(B.Lowered(str[pos + 1..]), B.Lowered(str'[pos + 1..]))| <= 3
    ensures var s := B.ExpandHRP(B.Lowered(str[..pos])) + B.Values(str[pos + 1..]);
            var t := B.ExpandHRP(B.Lowered(str'[..pos])) + B.Values(str'[pos + 1..]);
            |s| == |t| && s != t && |Differences(s, t)| <= 3 && Within(Differences(s, t), 1023)
  {
    hide B.RevOf, B.CharOf, B.ExpandHRP, B.DataOk;
    var a, b := B.Lowered(str[..pos]), B.Lowered(str'[..pos]);
    var c, d := B.Lowered(str[pos + 1..]), B.Lowered(str'[pos + 1..]);
    var v, w := B.Values(str[pos + 1..]), B.Values(str'[pos + 1..]);
    assert |v| == |w| == |c| == |d|;
    forall i: nat | i < |v|
      ensures v[i] == w[i] <==> c[i] == d[i]
    {
      SymbolDiffers(str, str', pos, i);
    }
    hide B.Values, B.Lowered;
    ExpandDiffers(a, b, 0);
    PartsDiffer(a, b, v, w, Differences(c, d));
  }

  // Whether place q is one of the first n that is in highs, one of the last of 2n + 1 that is in
  // lows, or one behind those that is in data.
  ghost predicate Hit(n: nat, highs: set<nat>, lows: set<nat>, data: set<nat>, q: nat) {
    if q < n then q in highs else if q == n then false else if q < 2 * n + 1 then q - n - 1 in lows else q - 2 * n - 1 in data
  }

  ghost predicate DifferAt(s: seq<Symbol>, t: seq<Symbol>, n: nat, highs: set<nat>, lows: set<nat>, data: set<nat>) {
    |s| == |t| && forall q: nat :: q < |s| ==> (s[q] != t[q] <==> Hit(n, highs, lows, data, q))
  }

  lemma {:induction false} PartsDiffer(a: string, b: string, v: seq<Symbol>, w: seq<Symbol>, data: set<nat>)
    requires |a| == |b| && Ascii(a) && Ascii(b) && |v| == |w| && 2 * |a| + |v| < 1000
    requires forall i :: i in data <==> 0 <= i < |v| && v[i] != w[i]
    requires 1 <= |HighDiffs(a, b)| + |LowDiffs(a, b)| + |data| <= 3
    ensures var s, t := B.ExpandHRP(a) + v, B.ExpandHRP(b) + w;
            |s| == |t| && s != t && |Differences(s, t)| <= 3 && Within(Differences(s, t), 1023)
  {
    hide B.ExpandHRP, Ascii;
    ExpandDiffers(a, b, 0);
    var s, t, n := B.ExpandHRP(a) + v, B.ExpandHRP(b) + w, |a|;
    forall q: nat | q < |s|
      ensures s[q] != t[q] <==> Hit(n, HighDiffs(a, b), LowDiffs(a, b), data, q)
    {
      hide HighDiffs, LowDiffs;
      if q < 2 * n + 1 {
        ExpandDiffers(a, b, q);
      }
    }
    assert forall i :: i in HighDiffs(a, b) ==> i < n;
    assert forall i :: i in LowDiffs(a, b) ==> i < n;
    hide HighDiffs, LowDiffs, Hit;
    CountPlaces(s, t, n, HighDiffs(a, b), LowDiffs(a, b), data);
    SomePlace(s, t, n, HighDiffs(a, b), LowDiffs(a, b), data);
  }

  lemma {:induction false} CountPlaces(s: seq<Symbol>, t: seq<Symbol>, n: nat, highs: set<nat>, lows: set<nat>, data: set<nat>)
    requires |s| == |t| && DifferAt(s, t, n, highs, lows, data)
    ensures |Differences(s, t)| <= |highs| + |lows| + |data|
  {
    hide DifferAt, Differences;
    var all := Differences(s, t);
    var first, second, third :=
      set q | q in all && q < n, set q | q in all && n <= q < 2 * n + 1, set q | q in all && 2 * n + 1 <= q;
    forall q | q in all
      ensures Hit(n, highs, lows, data, q)
    {
      IsHit(s, t, n, highs, lows, data, q);
    }
    Moved(highs, first, 0);
    Moved(lows, second, n + 1);
    Moved(data, third, 2 * n + 1);
    hide Hit;
    UnionOfThree(all, first, second, third);
  }

  lemma {:induction false} IsHit(s: seq<Symbol>, t: seq<Symbol>, n: nat, highs: set<nat>, lows: set<nat>, data: set<nat>, q: nat)
    requires |s| == |t| && DifferAt(s, t, n, highs, lows, data) && q in Differences(s, t)
    ensures Hit(n, highs, lows, data, q)
  {
    hide Hit;
  }

  lemma {:induction false} UnionOfThree(all: set<nat>, a: set<nat>, b: set<nat>, c: set<nat>)
    requires forall q :: q in all ==> q in a || q in b || q in c
    ensures |all| <= |a| + |b| + |c|
  {
    Moved(a + b + c, all, 0);
    assert |a + b + c| <= |a + b| + |c| && |a + b| <= |a| + |b|;
  }

  lemma {:induction false} SomePlace(s: seq<Symbol>, t: seq<Symbol>, n: nat, highs: set<nat>, lows: set<nat>, data: set<nat>)
    requires DifferAt(s, t, n, highs, lows, data) && |s| >= 2 * n + 1 && |highs| + |lows| + |data| >= 1
    requires (forall i :: i in highs ==> i < n) && (forall i :: i in lows ==> i < n)
    requires forall i :: i in data ==> i < |s| - 2 * n - 1
    ensures s != t
  {
    if i :| i in highs {
      assert Hit(n, highs, lows, data, i) && s[i] != t[i];
    } else if i :| i in lows {
      var q := n + 1 + i;
      assert Hit(n, highs, lows, data, q) && s[q] != t[q];
    } else {
      assert highs == {} && lows == {};
      var i :| i in data;
      var q := 2 * n + 1 + i;
      assert Hit(n, highs, lows, data, q) && s[q] != t[q];
    }
  }

  // In particular one wrong character in the prefix is detected, also beside one wrong character
  // behind the separator.
  lemma {:induction false} PrefixErrorIsDetected(str: string, str': string, pos: nat)
    requires B.Decodable(str) && B.LastOne(str, pos) && |str'| == |str| && B.LastOne(str', pos)
    requires |Differences(B.Lowered(str[..pos]), B.Lowered(str'[..pos]))| == 1
    requires |Differences(B.Lowered(str[pos + 1..]), B.Lowered(str'[pos + 1..]))| <= 1
    ensures !B.Decodable(str')
  {
    hide B.Decodable;
    var a, b := B.Lowered(str[..pos]), B.Lowered(str'[..pos]);
    OneCharacter(a, b);
    PrefixErrorsAreDetected(str, str', pos);
  }

  lemma {:induction false} OneCharacter(a: string, b: string)
    requires |a| == |b| && |Differences(a, b)| == 1
    ensures 1 <= |HighDiffs(a, b)| + |LowDiffs(a, b)| <= 2
  {
    var all := Differences(a, b);
    Moved(all, HighDiffs(a, b), 0);
    Moved(all, LowDiffs(a, b), 0);
    var p :| p in all;
    assert a[p] as int != b[p] as int;
    assert p in HighDiffs(a, b) || p in LowDiffs(a, b);
    assert HighDiffs(a, b) != {} || LowDiffs(a, b) != {};
  }
}
