// Multi-limb unsigned arithmetic (src/arith_uint256.h, src/arith_uint256.cpp). A number
// is its array of 32-bit limbs, least significant first.

module Limbs {
  import opened Basics

  const BASE := 0x1_0000_0000

  type Limb = x: int | 0 <= x < BASE

  lemma {:induction false} PowAdd(a: nat, b: nat)
    ensures Pow2(a + b) == Pow2(a) * Pow2(b)
  {
    if a > 0 {
      PowAdd(a - 1, b);
      assert Pow2(a + b) == 2 * (Pow2(a - 1) * Pow2(b));
    }
  }

  lemma {:induction false} PowMono(a: nat, b: nat)
    requires a <= b
    ensures Pow2(a) <= Pow2(b)
  {
    if a < b {
      PowMono(a, b - 1);
    }
  }

  // The powers that appear as constants.
  lemma {:induction false} PowConstants()
    ensures Pow2(7) == 0x80 && Pow2(8) == 0x100 && Pow2(15) == 0x8000 && Pow2(16) == 0x10000
    ensures Pow2(23) == 0x800000 && Pow2(24) == 0x1000000 && Pow2(31) == 0x80000000 && Pow2(32) == BASE
  {
    assert Pow2(7) == 0x80;
    assert Pow2(8) == 0x100;
    PowAdd(7, 8);
    PowAdd(8, 8);
    PowAdd(7, 16);
    PowAdd(8, 16);
    PowAdd(7, 24);
    PowAdd(8, 24);
  }

  // The weight of a limb.
  ghost function Weight(i: nat): nat {
    Pow2(32 * i)
  }

  lemma {:induction false} WeightNext(i: nat)
    ensures Weight(i + 1) == BASE * Weight(i) && Weight(i) >= 1 && Weight(0) == 1
  {
    PowConstants();
    PowAdd(32, 32 * i);
  }

  lemma {:induction false} WeightAdd(i: nat, j: nat)
    ensures Weight(i + j) == Weight(i) * Weight(j)
  {
    PowAdd(32 * i, 32 * j);
    assert 32 * (i + j) == 32 * i + 32 * j;
  }

  // The number that limbs stand for.
  ghost function Val(s: seq<Limb>): (v: int)
    ensures v >= 0
  {
    if s == [] then 0
    else
      MulMono(0, s[|s| - 1], Weight(|s| - 1));
      Val(s[..|s| - 1]) + s[|s| - 1] * Weight(|s| - 1)
  }

  lemma {:induction false} ValPrefix(s: seq<Limb>, i: nat)
    requires i < |s|
    ensures Val(s[..i + 1]) == Val(s[..i]) + s[i] * Weight(i)
  {
    assert s[..i + 1][..i] == s[..i];
  }

  lemma {:induction false} ValBound(s: seq<Limb>)
    ensures Val(s) < Weight(|s|)
  {
    if s == [] {
      WeightNext(0);
    } else {
      var n := |s| - 1;
      ValBound(s[..n]);
      WeightNext(n);
      MulMono(s[n], BASE - 1, Weight(n));
    }
  }

  lemma {:induction false} ValAppend(a: seq<Limb>, b: seq<Limb>)
    ensures Val(a + b) == Val(a) + Weight(|a|) * Val(b)
  {
    if b == [] {
      assert a + b == a;
    } else {
      var n := |b| - 1;
      ValAppend(a, b[..n]);
      assert (a + b)[..|a| + n] == a + b[..n];
      WeightAdd(|a|, n);
      Distribute(Weight(|a|), Val(b[..n]), b[n], Weight(n));
    }
  }

  lemma {:induction false} Distribute(w: int, v: int, x: int, u: int)
    ensures w * (v + x * u) == w * v + x * (w * u)
  {
    assert w * (x * u) == x * (w * u);
  }

  lemma {:induction false} ValUpdate(s: seq<Limb>, i: nat, x: Limb)
    requires i < |s|
    ensures Val(s[i := x]) == Val(s) + (x - s[i]) * Weight(i)
  {
    var n := |s| - 1;
    if i == n {
      assert s[i := x][..n] == s[..n];
      assert (x - s[i]) * Weight(i) == x * Weight(i) - s[i] * Weight(i);
    } else {
      ValUpdate(s[..n], i, x);
      assert s[i := x][..n] == s[..n][i := x];
    }
  }

  lemma {:induction false} ValZero(s: seq<Limb>)
    requires forall i :: 0 <= i < |s| ==> s[i] == 0
    ensures Val(s) == 0
  {
    if s != [] {
      ValZero(s[..|s| - 1]);
    }
  }

  // Reading a number off modulo another: the only remainder and quotient there are.
}

module BaseUint {
  import opened Basics
  import opened Limbs

  // Modulus of a number of that many limbs.
  ghost function Modulus(pn: array<Limb>): nat {
    Weight(pn.Length)
  }

  lemma {:induction false} CarryStep(w: int, c: int, e: int)
    ensures (c + e) % BASE * w + (c + e) / BASE * (BASE * w) == c * w + e * w
  {
    var q, r := (c + e) / BASE, (c + e) % BASE;
    assert c + e == q * BASE + r;
    assert q * (BASE * w) == (q * BASE) * w;
    assert (q * BASE + r) * w == (q * BASE) * w + r * w;
    assert (c + e) * w == c * w + e * w;
  }

  // One turn of a carry loop: a limb is written, the carry moves on.
  lemma {:induction false} CarryTurn(s: seq<Limb>, i: nat, carry: nat, e: nat, total: int)
    requires i < |s| && s[i] == (carry + e) % BASE
    requires Val(s[..i]) + carry * Weight(i) == total
    ensures Val(s[..i + 1]) + (carry + e) / BASE * Weight(i + 1) == total + e * Weight(i)
  {
    ValPrefix(s, i);
    WeightNext(i);
    CarryStep(Weight(i), carry, e);
  }

  lemma {:induction false} CarryEnd(s: seq<Limb>, carry: nat, total: int)
    requires Val(s) + carry * Weight(|s|) == total
    ensures Val(s) == total % Weight(|s|)
  {
    ValBound(s);
    DivUnique(total, carry, Val(s), Weight(|s|));
  }

  method AddAssign(pn: array<Limb>, b: array<Limb>)
    requires pn.Length == b.Length
    modifies pn
    ensures Val(pn[..]) == (old(Val(pn[..])) + old(Val(b[..]))) % Modulus(pn)
  {
    hide Val, Weight;
    ghost var x, y := pn[..], b[..];
    var carry, i := 0, 0;
    assert Val(x[..0]) == Val(y[..0]) == 0 by { ValZero(x[..0]); ValZero(y[..0]); }
    while i < pn.Length
      invariant 0 <= i <= pn.Length && 0 <= carry <= 1
      invariant pn[i..] == x[i..] && b[i..] == y[i..]
      invariant Val(pn[..i]) + carry * Weight(i) == Val(x[..i]) + Val(y[..i])
    {
      assert pn[i] == pn[i..][0] == x[i] && b[i] == b[i..][0] == y[i];
      var n := carry + pn[i] + b[i];
      ghost var before := pn[..];
      pn[i] := n % BASE;
      assert pn[..i] == before[..i];
      AddTurn(pn[..], x, y, i, carry);
      carry, i := n / BASE, i + 1;
      assert pn[i..] == x[i..] && b[i..] == y[i..];
    }
    assert pn[..i] == pn[..] && x[..i] == x && y[..i] == y;
    CarryEnd(pn[..], carry, Val(x) + Val(y));
  }

  lemma {:induction false} AddTurn(s: seq<Limb>, x: seq<Limb>, y: seq<Limb>, i: nat, carry: nat)
    requires i < |s| == |x| == |y| && s[i] == (carry + x[i] + y[i]) % BASE
    requires Val(s[..i]) + carry * Weight(i) == Val(x[..i]) + Val(y[..i])
    ensures Val(s[..i + 1]) + (carry + x[i] + y[i]) / BASE * Weight(i + 1) == Val(x[..i + 1]) + Val(y[..i + 1])
  {
    hide Val, Weight;
    CarryTurn(s, i, carry, x[i] as int + y[i], Val(x[..i]) + Val(y[..i]));
    ValPrefix(x, i);
    ValPrefix(y, i);
    assert (x[i] + y[i]) * Weight(i) == x[i] * Weight(i) + y[i] * Weight(i);
  }

  method MulAssignLimb(pn: array<Limb>, b32: Limb)
    modifies pn
    ensures Val(pn[..]) == (old(Val(pn[..])) * b32) % Modulus(pn)
  {
    hide Val, Weight;
    ghost var x := pn[..];
    var carry, i := 0, 0;
    assert Val(x[..0]) == 0 by { ValZero(x[..0]); }
    while i < pn.Length
      invariant 0 <= i <= pn.Length && 0 <= carry < BASE
      invariant pn[i..] == x[i..]
      invariant Val(pn[..i]) + carry * Weight(i) == Val(x[..i]) * b32
    {
      assert pn[i] == pn[i..][0] == x[i];
      var n := carry + b32 * pn[i];
      ghost var before := pn[..];
      ProductFits(carry, 0, b32, x[i]);
      pn[i] := n % BASE;
      assert pn[..i] == before[..i];
      MulTurn(pn[..], x, b32, i, carry);
      carry, i := n / BASE, i + 1;
      assert pn[i..] == x[i..];
    }
    assert pn[..i] == pn[..] && x[..i] == x;
    CarryEnd(pn[..], carry, Val(x) * b32);
  }

  // A carry, a limb and a product of limbs fit in 64 bits.
  lemma {:induction false} ProductFits(c: Limb, p: Limb, a: Limb, b: Limb)
    ensures 0 <= a * b && c + p + a * b < BASE * BASE && 0 <= (c + p + a * b) / BASE < BASE
  {
    MulMono(a, BASE - 1, b);
    MulMono(0, a, b);
    MulMono(b, BASE - 1, BASE - 1);
  }

  lemma {:induction false} MulTurn(s: seq<Limb>, x: seq<Limb>, b: Limb, i: nat, carry: nat)
    requires i < |s| == |x| && b * x[i] >= 0 && s[i] == (carry + b * x[i]) % BASE
    requires Val(s[..i]) + carry * Weight(i) == Val(x[..i]) * b
    ensures Val(s[..i + 1]) + (carry + b * x[i]) / BASE * Weight(i + 1) == Val(x[..i + 1]) * b
  {
    hide Val, Weight;
    CarryTurn(s, i, carry, b * x[i], Val(x[..i]) * b);
    ValPrefix(x, i);
    assert (Val(x[..i]) + x[i] * Weight(i)) * b == Val(x[..i]) * b + (x[i] * Weight(i)) * b;
    assert (x[i] * Weight(i)) * b == (b * x[i]) * Weight(i);
  }

  // Three-way comparison from the most significant limb down.
  method CompareTo(pn: array<Limb>, b: array<Limb>) returns (c: int)
    requires pn.Length == b.Length
    ensures c == if Val(pn[..]) < Val(b[..]) then -1 else if Val(pn[..]) > Val(b[..]) then 1 else 0
  {
    hide Val, Weight;
    var i := pn.Length;
    assert pn[i..] == b[i..] == [];
    while i > 0
      invariant 0 <= i <= pn.Length && pn[i..] == b[i..]
    {
      i := i - 1;
      if pn[i] != b[i] {
        CompareAt(pn[..], b[..], i);
        return if pn[i] < b[i] then -1 else 1;
      }
      assert pn[i..] == [pn[i]] + pn[i + 1..] && b[i..] == [b[i]] + b[i + 1..];
    }
    assert pn[..] == pn[i..] && b[..] == b[i..];
    c := 0;
  }

  lemma {:induction false} CompareAt(x: seq<Limb>, y: seq<Limb>, i: nat)
    requires i < |x| == |y| && x[i + 1..] == y[i + 1..]
    ensures x[i] < y[i] ==> Val(x) < Val(y)
    ensures x[i] > y[i] ==> Val(x) > Val(y)
  {
    if x[i] < y[i] {
      TopDecides(x, y, i);
    } else if x[i] > y[i] {
      TopDecides(y, x, i);
    }
  }

  lemma {:induction false} TopDecides(x: seq<Limb>, y: seq<Limb>, i: nat)
    requires i < |x| == |y| && x[i + 1..] == y[i + 1..] && x[i] < y[i]
    ensures Val(x) < Val(y)
  {
    hide Val, Weight;
    var t := x[i + 1..];
    assert x == x[..i + 1] + t && y == y[..i + 1] + t;
    ValAppend(x[..i + 1], t);
    ValAppend(y[..i + 1], t);
    ValPrefix(x, i);
    ValPrefix(y, i);
    ValBound(x[..i]);
    MulMono(x[i] + 1, y[i], Weight(i));
    assert (x[i] + 1) * Weight(i) == x[i] * Weight(i) + Weight(i);
  }

  // ---- complement, increment and negation ----

  method Complement(pn: array<Limb>) returns (r: array<Limb>)
    ensures fresh(r) && r.Length == pn.Length && Val(r[..]) == Modulus(pn) - 1 - Val(pn[..])
  {
    hide Val, Weight;
    r := new Limb[pn.Length];
    var i := 0;
    assert Val(r[..0]) == Val(pn[..0]) == 0 && Weight(0) == 1 by { ValZero(r[..0]); ValZero(pn[..0]); WeightNext(0); }
    while i < pn.Length
      invariant 0 <= i <= pn.Length && Val(r[..i]) == Weight(i) - 1 - Val(pn[..i])
    {
      ghost var before := r[..];
      r[i] := BASE - 1 - pn[i];
      assert r[..i] == before[..i];
      ValPrefix(r[..], i);
      ValPrefix(pn[..], i);
      assert r[..][..i + 1] == r[..i + 1] && pn[..][..i + 1] == pn[..i + 1] && r[..][..i] == r[..i] && pn[..][..i] == pn[..i];
      WeightNext(i);
      assert (BASE - 1 - pn[i]) * Weight(i) == BASE * Weight(i) - Weight(i) - pn[i] * Weight(i);
      i := i + 1;
    }
    assert r[..i] == r[..] && pn[..i] == pn[..];
  }

  method Increment(pn: array<Limb>)
    modifies pn
    ensures Val(pn[..]) == (old(Val(pn[..])) + 1) % Modulus(pn)
  {
    hide Val, Weight;
    ghost var x := pn[..];
    var i := 0;
    assert Val(x[..0]) == 0 && Weight(0) == 1 by { ValZero(x[..0]); WeightNext(0); }
    var carry := 1;
    while i < pn.Length && carry == 1
      invariant 0 <= i <= pn.Length && 0 <= carry <= 1
      invariant pn[i..] == x[i..]
      invariant Val(pn[..i]) + carry * Weight(i) == Val(x[..i]) + 1
    {
      assert pn[i] == pn[i..][0] == x[i];
      ghost var before := pn[..];
      var n := pn[i] as int + 1;
      pn[i] := n % BASE;
      assert pn[..i] == before[..i];
      CarryTurn(pn[..], i, 1, x[i], Val(x[..i]) + 1);
      ValPrefix(x, i);
      carry, i := n / BASE, i + 1;
      assert pn[i..] == x[i..];
    }
    var k := i;
    assert pn[..] == pn[..k] + pn[k..] && x == x[..k] + x[k..];
    ValAppend(pn[..k], pn[k..]);
    ValAppend(x[..k], x[k..]);
    if carry == 1 {
      assert pn[..i] == pn[..] && x[..i] == x;
    } else {
      assert Val(pn[..]) + 0 * Weight(|pn[..]|) == Val(x) + 1;
    }
    CarryEnd(pn[..], carry, Val(x) + 1);
  }

  method Negate(pn: array<Limb>) returns (r: array<Limb>)
    ensures fresh(r) && r.Length == pn.Length && Val(r[..]) == (-Val(pn[..])) % Modulus(pn)
  {
    hide Val, Weight;
    r := Complement(pn);
    assert Weight(pn.Length) >= 1 by { WeightNext(pn.Length); }
    ghost var m, v := Modulus(pn), Val(pn[..]);
    Increment(r);
    ValBound(pn[..]);
    NegateMod(v, m);
  }

  lemma {:induction false} NegateMod(v: int, m: int)
    requires 0 <= v < m
    ensures (m - 1 - v + 1) % m == (-v) % m
  {
    DivUnique(m - v, if v == 0 then 1 else 0, if v == 0 then 0 else m - v, m);
    DivUnique(-v, if v == 0 then 0 else -1, if v == 0 then 0 else m - v, m);
  }

  method SubAssign(pn: array<Limb>, b: array<Limb>)
    requires pn.Length == b.Length
    modifies pn
    ensures Val(pn[..]) == (old(Val(pn[..])) - old(Val(b[..]))) % Modulus(pn)
  {
    hide Val, Weight;
    var n := Negate(b);
    assert Weight(pn.Length) >= 1 by { WeightNext(pn.Length); }
    ghost var x, y := Val(pn[..]), Val(b[..]);
    AddAssign(pn, n);
    AddMod(x, -y, Modulus(pn));
  }

  lemma {:induction false} AddMod(x: int, y: int, m: int)
    requires m > 0
    ensures (x + y % m) % m == (x + y) % m
  {
    var q := y / m;
    assert y == q * m + y % m;
    var p := (x + y % m) / m;
    assert x + y % m == p * m + (x + y % m) % m;
    assert (p + q) * m == p * m + q * m;
    DivUnique(x + y, p + q, (x + y % m) % m, m);
  }

  method Copy(pn: array<Limb>) returns (r: array<Limb>)
    ensures fresh(r) && r[..] == pn[..]
  {
    r := new Limb[pn.Length];
    var i := 0;
    while i < pn.Length
      invariant 0 <= i <= pn.Length && r[..i] == pn[..i]
    {
      r[i] := pn[i];
      i := i + 1;
    }
    assert r[..i] == r[..] && pn[..i] == pn[..];
  }

  method Clear(pn: array<Limb>)
    modifies pn
    ensures forall i :: 0 <= i < pn.Length ==> pn[i] == 0
    ensures Val(pn[..]) == 0
  {
    var i := 0;
    while i < pn.Length
      invariant 0 <= i <= pn.Length && forall j :: 0 <= j < i ==> pn[j] == 0
    {
      pn[i] := 0;
      i := i + 1;
    }
    ValZero(pn[..]);
  }

  // ---- multiplication ----

  lemma {:induction false} RowTurn(s: seq<Limb>, p: seq<Limb>, b: seq<Limb>, a: Limb, i: nat, carry: nat)
    requires i < |s| == |p| && i < |b| && a * b[i] >= 0 && s[i] == (carry + p[i] + a * b[i]) % BASE
    requires Val(s[..i]) + carry * Weight(i) == Val(p[..i]) + a * Val(b[..i])
    ensures Val(s[..i + 1]) + (carry + p[i] + a * b[i]) / BASE * Weight(i + 1) == Val(p[..i + 1]) + a * Val(b[..i + 1])
  {
    hide Val, Weight;
    var e := p[i] as int + a * b[i];
    assert carry + p[i] + a * b[i] == carry + e;
    CarryTurn(s, i, carry, e, Val(p[..i]) + a * Val(b[..i]));
    ValPrefix(p, i);
    ValPrefix(b, i);
    RowArith(a, b[i], p[i], Val(b[..i]), Weight(i));
  }

  lemma {:induction false} RowArith(a: int, x: int, p: int, v: int, u: int)
    ensures (p + a * x) * u + a * v == p * u + a * (v + x * u)
  {
    assert a * (v + x * u) == a * v + a * x * u;
    assert (p + a * x) * u == p * u + a * x * u;
  }

  // The inner loop: one limb times the other number, added in from limb j on. The other
  // number may be the same object only while it is zero, and then it stays so.
  method AddRow(pn: array<Limb>, b: array<Limb>, a: Limb, j: nat)
    requires pn.Length == b.Length && j < pn.Length
    requires pn == b ==> forall i :: 0 <= i < pn.Length ==> pn[i] == 0
    modifies pn
    ensures b[..] == old(b[..])
    ensures Val(pn[..]) == (old(Val(pn[..])) + a * Weight(j) * Val(b[..])) % Modulus(pn)
  {
    hide Val, Weight;
    ghost var p, y := pn[..], b[..];
    var carry, i, w := 0, 0, pn.Length;
    assert Val(p[j..][..0]) == Val(y[..0]) == 0 by { ValZero(p[j..][..0]); ValZero(y[..0]); }
    assert a * 0 == 0;
    while i + j < w
      invariant 0 <= i <= w - j && 0 <= carry < BASE
      invariant b[..] == y && (pn == b ==> carry == 0)
      invariant pn[..j] == p[..j] && pn[i + j..] == p[i + j..]
      invariant Val(pn[j..][..i]) + carry * Weight(i) == Val(p[j..][..i]) + a * Val(y[..i])
    {
      assert pn[i + j] == pn[i + j..][0] == p[i + j] == p[j..][i];
      ProductFits(carry, pn[i + j], a, b[i]);
      var n := carry + pn[i + j] + a * b[i];
      assert pn == b ==> y[i] == 0 && y[i + j] == 0 && n == 0;
      ghost var before := pn[..];
      pn[i + j] := n % BASE;
      assert pn[j..][..i] == before[j..][..i] && pn[..j] == before[..j];
      RowTurn(pn[j..], p[j..], y, a, i, carry);
      carry, i := n / BASE, i + 1;
      assert pn[i + j..] == p[i + j..];
    }
    assert pn[j..][..i] == pn[j..] && p[j..][..i] == p[j..];
    RowEnd(p, pn[..], y, a, j, carry);
  }

  lemma {:induction false} RowEnd(p: seq<Limb>, r: seq<Limb>, b: seq<Limb>, a: Limb, j: nat, carry: nat)
    requires j < |p| == |r| == |b| && r[..j] == p[..j]
    requires Val(r[j..]) + carry * Weight(|p| - j) == Val(p[j..]) + a * Val(b[..|p| - j])
    ensures Val(r) == (Val(p) + a * Weight(j) * Val(b)) % Weight(|p|)
  {
    hide Val, Weight;
    var k := |p| - j;
    assert p == p[..j] + p[j..] && r == r[..j] + r[j..] && b == b[..k] + b[k..];
    ValAppend(p[..j], p[j..]);
    ValAppend(r[..j], r[j..]);
    ValAppend(b[..k], b[k..]);
    WeightAdd(j, k);
    RowSum(Weight(j), Weight(k), Val(p[..j]), Val(p[j..]), Val(r[j..]), Val(b[..k]), Val(b[k..]), a, carry);
    ValBound(r);
    DivUnique(Val(p) + a * Weight(j) * Val(b), carry + a * Val(b[k..]), Val(r), Weight(|p|));
  }

  lemma {:induction false} RowSum(wj: int, wk: int, low: int, p: int, r: int, b0: int, b1: int, a: int, c: int)
    requires r + c * wk == p + a * b0
    ensures low + wj * p + a * wj * (b0 + wk * b1) == (c + a * b1) * (wj * wk) + (low + wj * r)
  {
    assert wj * (r + c * wk) == wj * (p + a * b0);
    assert wj * (r + c * wk) == wj * r + c * (wj * wk);
    assert wj * (p + a * b0) == wj * p + a * wj * b0;
    assert a * wj * (b0 + wk * b1) == a * wj * b0 + a * wj * (wk * b1);
    assert a * wj * (wk * b1) == (a * b1) * (wj * wk);
    assert (c + a * b1) * (wj * wk) == c * (wj * wk) + (a * b1) * (wj * wk);
  }

  // The number is cleared before the operand is read, so a number times itself gives zero.
  method MulAssign(pn: array<Limb>, b: array<Limb>)
    requires pn.Length == b.Length
    modifies pn
    ensures Val(pn[..]) == if pn == b then 0 else (old(Val(pn[..])) * Val(b[..])) % Modulus(pn)
  {
    hide Val, Weight;
    var a := Copy(pn);
    ghost var x, m := pn[..], Modulus(pn);
    Clear(pn);
    ghost var y := Val(b[..]);
    var j := 0;
    assert Val(x[..0]) == 0 by { ValZero(x[..0]); }
    assert m >= 1 by { WeightNext(pn.Length); }
    assert 0 * y % m == 0;
    while j < pn.Length
      invariant 0 <= j <= pn.Length && a[..] == x && Val(b[..]) == y
      invariant pn == b ==> forall i :: 0 <= i < pn.Length ==> pn[i] == 0
      invariant Val(pn[..]) == (Val(x[..j]) * y) % m
    {
      assert a[j] == a[..][j];
      ghost var before := b[..];
      AddRow(pn, b, a[j], j);
      assert forall i :: 0 <= i < b.Length ==> b[i] == before[i];
      ValPrefix(x, j);
      NextRow(Val(x[..j]), x[j], Weight(j), y, m);
      j := j + 1;
    }
    assert x[..j] == x;
  }

  // Zero is the square of a number, modulo 2^(2k), exactly if the lower half of its bits is zero.
  lemma {:induction false} SquareIsZero(v: nat, k: nat)
    ensures v * v % Pow2(2 * k) == 0 <==> v % Pow2(k) == 0
  {
    if k > 0 {
      var u, p, q := v / 2, Pow2(k - 1), Pow2(2 * (k - 1));
      assert Pow2(2 * k) == 4 * q && Pow2(k) == 2 * p by { PowTwice(k); }
      hide Pow2;
      if v % 2 == 0 {
        SquareIsZero(u, k - 1);
        assert v * v == 4 * (u * u) by { SquareOfEven(v, u); }
        Multiples(u, p, 2);
        Multiples(u * u, q, 4);
      } else {
        SquareOfOdd(v, u);
        OddStaysOdd(v, u, p);
        OddStaysOdd(v * v, 2 * u * u + 2 * u, 2 * q);
      }
    }
  }

  lemma {:induction false} PowTwice(k: nat)
    requires k > 0
    ensures Pow2(2 * k) == 4 * Pow2(2 * (k - 1)) && Pow2(k) == 2 * Pow2(k - 1)
  {
    assert Pow2(2 * k) == 2 * Pow2(2 * k - 1) && Pow2(2 * k - 1) == 2 * Pow2(2 * k - 2);
  }

  lemma {:induction false} SquareOfEven(v: int, u: int)
    requires v == 2 * u
    ensures v * v == 4 * (u * u)
  {
    assert (2 * u) * (2 * u) == 4 * (u * u);
  }

  lemma {:induction false} SquareOfOdd(v: int, u: int)
    requires v == 2 * u + 1
    ensures v * v == 2 * (2 * u * u + 2 * u) + 1
  {
    assert (2 * u + 1) * (2 * u + 1) == 4 * (u * u) + 4 * u + 1 && 2 * u * u == 2 * (u * u);
  }

  lemma {:induction false} Multiples(x: nat, p: nat, c: nat)
    requires p > 0 && c > 0
    ensures (c * x) % (c * p) == 0 <==> x % p == 0
  {
    var q, r := x / p, x % p;
    assert x == q * p + r;
    Scale(x, q, p, r, c);
    MulMono(r + 1, p, c);
    MulMono(0, r, c);
    assert (r + 1) * c == r * c + c && r * c == c * r && p * c == c * p;
    DivUnique(c * x, q, c * r, c * p);
    assert c * r == 0 <==> r == 0 by { MulMono(if r == 0 then 0 else 1, r, c); }
  }

  lemma {:induction false} Scale(x: int, q: int, p: int, r: int, c: int)
    requires x == q * p + r
    ensures c * x == q * (c * p) + c * r
  {
    assert c * (q * p + r) == q * (c * p) + c * r;
  }

  lemma {:induction false} OddStaysOdd(v: nat, u: nat, p: nat)
    requires v == 2 * u + 1 && p > 0
    ensures v % (2 * p) != 0
  {
    var q := v / (2 * p);
    assert v == q * (2 * p) + v % (2 * p);
    assert q * (2 * p) == 2 * (q * p);
  }

  // So `x *= x` is right exactly if the lower half of the bits of x is zero.
  lemma {:induction false} SelfProduct(v: nat, width: nat)
    ensures 0 == v * v % Weight(width) <==> v % Pow2(16 * width) == 0
  {
    SquareIsZero(v, 16 * width);
  }

  lemma {:induction false} NextRow(v: int, a: int, w: int, y: int, m: int)
    requires m > 0
    ensures ((v * y) % m + a * w * y) % m == ((v + a * w) * y) % m
  {
    assert (v + a * w) * y == v * y + a * w * y;
    AddMod(a * w * y, v * y, m);
  }

  // ---- bits ----

  // Two parts without a common bit: x below bit s, y from bit s up.
  function Or(x: Limb, y: Limb, ghost s: nat): Limb
    requires s <= 32 && x < Pow2(s) && y % Pow2(s) == 0
  {
    assert x + y < BASE by { OrFits(x, y, s); }
    x + y
  }

  lemma {:induction false} OrFits(x: Limb, y: Limb, s: nat)
    requires s <= 32 && x < Pow2(s) && y % Pow2(s) == 0
    ensures x as int + y < BASE
  {
    hide Pow2;
    PowConstants();
    PowAdd(s, 32 - s);
    PartsFit(x, y, y / Pow2(s), Pow2(s), Pow2(32 - s));
  }

  lemma {:induction false} PartsFit(x: int, y: int, q: int, p: int, r: int)
    requires p > 0 && p * r == BASE && 0 <= x < p && y == q * p && y < BASE
    ensures x + y < BASE
  {
    if q >= r {
      MulMono(r, q, p);
    } else {
      MulMono(q + 1, r, p);
      assert (q + 1) * p == q * p + p;
    }
  }

  method TopBit(x: Limb) returns (nbits: nat)
    requires x != 0
    ensures nbits < 32 && Pow2(nbits) <= x < Pow2(nbits + 1)
  {
    nbits := 31;
    assert Pow2(32) == BASE && Pow2(0) == 1 by { PowConstants(); }
    hide Pow2;
    while nbits > 0
      invariant 0 <= nbits <= 31 && x < Pow2(nbits + 1)
    {
      if x / Pow2(nbits) % 2 != 0 {
        TopBitSet(x, nbits);
        return;
      }
      TopBitClear(x, nbits);
      nbits := nbits - 1;
    }
  }

  // The position of the highest bit set plus one, or zero.
  method Bits(pn: array<Limb>) returns (n: nat)
    ensures n <= 32 * pn.Length && Val(pn[..]) < Pow2(n) && (n > 0 ==> Pow2(n - 1) <= Val(pn[..]))
  {
    assert Pow2(0) == 1;
    hide Val, Weight, Pow2;
    var pos := pn.Length;
    while pos > 0
      invariant 0 <= pos <= pn.Length && forall i :: pos <= i < pn.Length ==> pn[i] == 0
    {
      pos := pos - 1;
      if pn[pos] != 0 {
        var nbits := TopBit(pn[pos]);
        BitsAt(pn[..], pos, nbits);
        return 32 * pos + nbits + 1;
      }
    }
    ValZero(pn[..]);
    n := 0;
  }

  lemma {:induction false} TopBitSet(x: int, k: nat)
    requires 0 <= x && x / Pow2(k) % 2 != 0
    ensures Pow2(k) <= x
  {
    hide Pow2;
    if x < Pow2(k) {
      DivUnique(x, 0, x, Pow2(k));
    }
  }

  lemma {:induction false} TopBitClear(x: int, k: nat)
    requires 0 <= x < Pow2(k + 1) && x / Pow2(k) % 2 == 0
    ensures x < Pow2(k)
  {
    var p := Pow2(k);
    if x >= p {
      DivUnique(x, 1, x - p, p);
    }
  }

  lemma {:induction false} BitsAt(s: seq<Limb>, pos: nat, k: nat)
    requires pos < |s| && (forall i :: pos < i < |s| ==> s[i] == 0) && Pow2(k) <= s[pos] < Pow2(k + 1)
    ensures Pow2(32 * pos + k) <= Val(s) < Pow2(32 * pos + k + 1)
  {
    hide Val, Pow2;
    assert s == s[..pos + 1] + s[pos + 1..];
    ValAppend(s[..pos + 1], s[pos + 1..]);
    ValZero(s[pos + 1..]);
    ValPrefix(s, pos);
    ValBound(s[..pos]);
    PowAdd(32 * pos, k);
    PowAdd(32 * pos, k + 1);
    Scaled(Pow2(k), s[pos], Pow2(k + 1), Val(s[..pos]), Weight(pos));
    assert Weight(pos + 1) * 0 == 0;
  }

  lemma {:induction false} Scaled(lo: int, x: int, hi: int, v: int, w: int)
    requires lo <= x < hi && 0 <= v < w
    ensures w * lo <= v + x * w < w * hi
  {
    MulMono(lo, x, w);
    MulMono(x + 1, hi, w);
    assert (x + 1) * w == x * w + w;
  }

  // ---- shifts ----

  // A limb shifted left is a high and a low part.
  lemma {:induction false} LeftParts(x: Limb, sh: nat)
    requires sh < 32
    ensures x * Pow2(sh) == x / Pow2(32 - sh) * BASE + x * Pow2(sh) % BASE
    ensures 0 <= x / Pow2(32 - sh) < Pow2(sh) && x * Pow2(sh) % BASE % Pow2(sh) == 0
  {
    hide Pow2;
    PowConstants();
    PowAdd(sh, 32 - sh);
    CutLimb(x, x / Pow2(32 - sh), x % Pow2(32 - sh), Pow2(sh), Pow2(32 - sh));
  }

  function High(x: Limb, sh: nat): (h: Limb)
    requires sh < 32
    ensures h < Pow2(sh) && (sh == 0 ==> h == 0)
  {
    LeftParts(x, sh);
    assert Pow2(0) == 1;
    x / Pow2(32 - sh)
  }

  function Low(x: Limb, sh: nat): (l: Limb)
    requires sh < 32
    ensures l % Pow2(sh) == 0 && x * Pow2(sh) == High(x, sh) * BASE + l
  {
    LeftParts(x, sh);
    x * Pow2(sh) % BASE
  }

  // x is q times r and t more, and p times r is a whole limb.
  lemma {:induction false} CutLimb(x: int, q: int, t: int, p: int, r: int)
    requires p > 0 && r > 0 && p * r == BASE && 0 <= x < BASE && x == q * r + t && 0 <= t < r
    ensures x * p == q * BASE + x * p % BASE && x * p % BASE == t * p && 0 <= q < p && t * p % p == 0
  {
    CutProduct(x, q, t, p, r);
    CutRange(x, q, t, p, r);
    DivUnique(x * p, q, t * p, BASE);
    DivUnique(t * p, t, 0, p);
  }

  lemma {:induction false} CutProduct(x: int, q: int, t: int, p: int, r: int)
    requires p > 0 && p * r == BASE && x == q * r + t && 0 <= t < r
    ensures x * p == q * BASE + t * p && 0 <= t * p < BASE
  {
    assert (q * r + t) * p == q * (p * r) + t * p;
    MulMono(0, t, p);
    MulMono(t + 1, r, p);
    assert (t + 1) * p == t * p + p;
  }

  lemma {:induction false} CutRange(x: int, q: int, t: int, p: int, r: int)
    requires p > 0 && r > 0 && p * r == BASE && 0 <= x < BASE && x == q * r + t && 0 <= t < r
    ensures 0 <= q < p
  {
    if q >= p {
      MulMono(p, q, r);
    }
    if q < 0 {
      MulMono(q, -1, r);
    }
  }

  // What one limb adds: h goes into the next limb, l into this one.
  lemma {:induction false} LeftTurn(x: int, h: int, l: int, i: nat, k: nat, sh: nat)
    requires x * Pow2(sh) == h * BASE + l
    ensures x * Weight(i) * Pow2(32 * k + sh) == h * Weight(i + k + 1) + l * Weight(i + k)
  {
    hide Weight;
    assert Pow2(32 * k + sh) == Weight(k) * Pow2(sh) by { WeightPow(k, sh); }
    hide Pow2;
    WeightAdd(i, k);
    WeightNext(i + k);
    LeftArith(x, h, l, Weight(i), Weight(k), Pow2(sh));
  }

  lemma {:induction false} WeightPow(k: nat, sh: nat)
    ensures Pow2(32 * k + sh) == Weight(k) * Pow2(sh)
  {
    PowAdd(32 * k, sh);
  }

  lemma {:induction false} LeftArith(x: int, h: int, l: int, wi: int, wk: int, p: int)
    requires x * p == h * BASE + l
    ensures x * wi * (wk * p) == h * (BASE * (wi * wk)) + l * (wi * wk)
  {
    var w := wi * wk;
    assert x * wi * (wk * p) == (x * p) * w;
    assert (h * BASE + l) * w == h * BASE * w + l * w;
    assert h * BASE * w == h * (BASE * w);
  }

  lemma {:induction false} WeightMultiple(i: nat, n: nat)
    requires n <= i
    ensures Weight(n) > 0 && Weight(i) % Weight(n) == 0
  {
    WeightAdd(i - n, n);
    WeightNext(n);
    DivUnique(Weight(i), Weight(i - n), 0, Weight(n));
  }

  lemma {:induction false} MulOfMultiple(c: int, w: int, m: int)
    requires m > 0 && w % m == 0
    ensures c * w % m == 0
  {
    assert w == w / m * m;
    assert c * w == c * (w / m) * m;
    DivUnique(c * w, c * (w / m), 0, m);
  }

  // The limbs that a shift has not reached are clear, and the next has only a high part.
  ghost predicate LeftClear(s: seq<Limb>, next: nat, sh: nat) {
    && (forall j :: next < j < |s| ==> s[j] == 0)
    && (next < |s| ==> s[next] < Pow2(sh))
  }

  method ShiftLeftLimb(pn: array<Limb>, ghost x: seq<Limb>, xi: Limb, i: nat, k: nat, sh: nat)
    requires sh < 32 && i < |x| == pn.Length && xi == x[i] && LeftClear(pn[..], i + k, sh)
    requires Val(pn[..]) == Val(x[..i]) * Pow2(32 * k + sh) % Weight(|x|)
    modifies pn
    ensures LeftClear(pn[..], i + 1 + k, sh)
    ensures Val(pn[..]) == Val(x[..i + 1]) * Pow2(32 * k + sh) % Weight(|x|)
  {
    assert Pow2(0) == 1;
    hide Val, Weight, Pow2, High, Low;
    var high, low := High(xi, sh), Low(xi, sh);
    ghost var before := pn[..];
    if i + k + 1 < pn.Length && sh != 0 {
      pn[i + k + 1] := Or(pn[i + k + 1], high, 0);
    }
    ghost var middle := pn[..];
    if i + k < pn.Length {
      pn[i + k] := Or(pn[i + k], low, sh);
    }
    LeftStep(before, middle, pn[..], x, high, low, i, k, sh);
  }

  method ShiftLeftAssign(pn: array<Limb>, shift: nat)
    modifies pn
    ensures Val(pn[..]) == old(Val(pn[..])) * Pow2(shift) % Modulus(pn)
  {
    hide Val, Weight, Pow2;
    var a := Copy(pn);
    ghost var x := pn[..];
    Clear(pn);
    var k, sh, i := shift / 32, shift % 32, 0;
    assert Val(x[..0]) == 0 by { ValZero(x[..0]); }
    assert Modulus(pn) >= 1 by { WeightNext(pn.Length); }
    assert 0 * Pow2(shift) % Modulus(pn) == 0;
    while i < pn.Length
      invariant 0 <= i <= pn.Length && a[..] == x && LeftClear(pn[..], i + k, sh)
      invariant Val(pn[..]) == Val(x[..i]) * Pow2(shift) % Modulus(pn)
    {
      assert a[i] == a[..][i];
      ShiftLeftLimb(pn, x, a[i], i, k, sh);
      i := i + 1;
    }
    assert x[..i] == x;
  }

  lemma {:induction false} LeftStep(s0: seq<Limb>, s1: seq<Limb>, s2: seq<Limb>, x: seq<Limb>, h: Limb, l: Limb, i: nat, k: nat, sh: nat)
    requires i < |x| == |s0| == |s1| == |s2| && x[i] * Pow2(sh) == h * BASE + l
    requires Val(s0) == Val(x[..i]) * Pow2(32 * k + sh) % Weight(|x|)
    requires i + k + 1 < |x| ==> s0[i + k + 1] == 0 && s1 == s0[i + k + 1 := h]
    requires i + k + 1 >= |x| ==> s1 == s0
    requires i + k < |x| ==> s1[i + k] as int + l < BASE && s2 == s1[i + k := s1[i + k] + l]
    requires i + k >= |x| ==> s2 == s1
    ensures Val(s2) == Val(x[..i + 1]) * Pow2(32 * k + sh) % Weight(|x|)
  {
    hide Val, Weight, Pow2;
    var m, p, n := Weight(|x|), Pow2(32 * k + sh), |x|;
    var wh, wl := Weight(i + k + 1), Weight(i + k);
    LeftTurn(x[i], h, l, i, k, sh);
    ValPrefix(x, i);
    assert (Val(x[..i]) + x[i] * Weight(i)) * p == Val(x[..i]) * p + x[i] * Weight(i) * p;
    WeightMultiple(n, n);
    WeightMultiple(if i + k + 1 < n then n else i + k + 1, n);
    WeightMultiple(if i + k < n then n else i + k, n);
    var lostHigh, lostLow := if i + k + 1 < n then 0 else wh, if i + k < n then 0 else wl;
    MulOfMultiple(h, lostHigh, m);
    MulOfMultiple(l, lostLow, m);
    ModZeroAdd(h * lostHigh, l * lostLow, m);
    if i + k + 1 < n {
      ValUpdate(s0, i + k + 1, h);
    }
    if i + k < n {
      ValUpdate(s1, i + k, s1[i + k] + l);
    }
    ValBound(s2);
    ModKeep(Val(x[..i]) * p, h * (wh - lostHigh) + l * (wl - lostLow), h * lostHigh + l * lostLow, m, Val(s2));
  }

  lemma {:induction false} ModZeroAdd(a: int, b: int, m: int)
    requires m > 0 && a % m == 0 && b % m == 0
    ensures (a + b) % m == 0
  {
    AddMod(a, b, m);
  }

  // Adding what is kept to the remainder gives the new remainder, if it fits and what is
  // dropped is a multiple of the modulus.
  lemma {:induction false} ModKeep(x: int, kept: int, dropped: int, m: int, v: int)
    requires m > 0 && dropped % m == 0 && v == x % m + kept && 0 <= v < m
    ensures v == (x + kept + dropped) % m
  {
    var q := x / m;
    assert x == q * m + x % m;
    assert dropped == dropped / m * m;
    assert (q + dropped / m) * m == q * m + dropped / m * m;
    DivUnique(x + kept + dropped, q + dropped / m, v, m);
  }

  // ---- shift right ----

  // A limb shifted right by sh, and what it leaves for the limb below.
  function Upper(x: Limb, sh: nat): (h: Limb)
    requires sh < 32
    ensures h < Pow2(32 - sh)
  {
    RightParts(x, sh);
    x / Pow2(sh)
  }

  function Lower(x: Limb, sh: nat): (l: Limb)
    requires sh < 32
    ensures l % Pow2(32 - sh) == 0 && l * Pow2(sh) + Upper(x, sh) * Pow2(sh) * BASE == x * BASE && (sh == 0 ==> l == 0)
    ensures 0 <= x - Upper(x, sh) * Pow2(sh) < Pow2(sh)
  {
    RightParts(x, sh);
    assert Pow2(0) == 1;
    x * Pow2(32 - sh) % BASE
  }

  lemma {:induction false} RightParts(x: Limb, sh: nat)
    requires sh <= 32
    ensures 0 <= x / Pow2(sh) < Pow2(32 - sh) && 0 <= x - x / Pow2(sh) * Pow2(sh) < Pow2(sh)
    ensures x * Pow2(32 - sh) % BASE % Pow2(32 - sh) == 0
    ensures x * Pow2(32 - sh) % BASE * Pow2(sh) + x / Pow2(sh) * Pow2(sh) * BASE == x * BASE
    ensures sh == 0 ==> x * Pow2(32 - sh) % BASE == 0
  {
    PowConstants();
    assert Pow2(0) == 1;
    hide Pow2;
    PowAdd(32 - sh, sh);
    RightCut(x, Pow2(32 - sh), Pow2(sh));
  }

  lemma {:induction false} RightCut(x: int, p: int, r: int)
    requires p > 0 && r > 0 && p * r == BASE && 0 <= x < BASE
    ensures 0 <= x / r < p && 0 <= x - x / r * r < r
    ensures x * p % BASE % p == 0 && x * p % BASE * r + x / r * r * BASE == x * BASE
    ensures r == 1 ==> x * p % BASE == 0
  {
    var q, t := x / r, x % r;
    CutLimb(x, q, t, p, r);
    RightArith(x, q, t, p, r);
  }

  lemma {:induction false} RightArith(x: int, q: int, t: int, p: int, r: int)
    requires p * r == BASE && x == q * r + t
    ensures t * p * r + q * r * BASE == x * BASE
  {
    assert t * p * r == t * (p * r);
    assert x * BASE == q * r * BASE + t * BASE;
  }

  // What a shift by k limbs and sh bits drops from the first i limbs.
  ghost function Dropped(x: seq<Limb>, i: nat, k: nat, sh: nat): int
    requires i <= |x| && sh < 32
  {
    if i <= k then Val(x[..i]) else Val(x[..k]) + (x[k] - Upper(x[k], sh) * Pow2(sh)) * Weight(k)
  }

  lemma {:induction false} DroppedSmall(x: seq<Limb>, i: nat, k: nat, sh: nat)
    requires i <= |x| && sh < 32
    ensures 0 <= Dropped(x, i, k, sh) < Pow2(32 * k + sh)
  {
    hide Val, Upper;
    WeightPow(k, sh);
    if i <= k {
      ValBound(x[..i]);
      PowMono(32 * i, 32 * k + sh);
    } else {
      hide Weight, Pow2;
      ValBound(x[..k]);
      var l := Lower(x[k], sh);
      Scaled(0, x[k] - Upper(x[k], sh) * Pow2(sh), Pow2(sh), Val(x[..k]), Weight(k));
    }
  }

  // The limbs that are not reached yet are clear, and the last one has only an upper part.
  ghost predicate RightClear(s: seq<Limb>, i: nat, k: nat, sh: nat) {
    && (forall j :: i - k <= j < |s| && 0 <= j ==> s[j] == 0)
    && (0 <= i - k - 1 < |s| ==> s[i - k - 1] < Pow2(32 - (if sh < 32 then sh else 0)))
  }

  lemma {:induction false} RightStep(s0: seq<Limb>, s1: seq<Limb>, s2: seq<Limb>, x: seq<Limb>, h: Limb, l: Limb, i: nat, k: nat, sh: nat)
    requires i < |x| == |s0| == |s1| == |s2| && sh < 32 && h == Upper(x[i], sh) && l == Lower(x[i], sh)
    requires Val(s0) * Pow2(32 * k + sh) + Dropped(x, i, k, sh) == Val(x[..i])
    requires i - k - 1 >= 0 ==> s0[i - k - 1] as int + l < BASE && s1 == s0[i - k - 1 := s0[i - k - 1] + l]
    requires i - k - 1 < 0 ==> s1 == s0
    requires i - k >= 0 ==> s1[i - k] == 0 && s2 == s1[i - k := h]
    requires i - k < 0 ==> s2 == s1
    ensures Val(s2) * Pow2(32 * k + sh) + Dropped(x, i + 1, k, sh) == Val(x[..i + 1])
  {
    hide Val, Weight, Pow2, Upper, Lower;
    assert Pow2(32 * k + sh) == Weight(k) * Pow2(sh) by { WeightPow(k, sh); }
    ValPrefix(x, i);
    if i - k - 1 >= 0 {
      assert l * Pow2(sh) + h * Pow2(sh) * BASE == x[i] * BASE;
      ValUpdate(s0, i - k - 1, s0[i - k - 1] + l);
      ValUpdate(s1, i - k, h);
      WeightAdd(i - k - 1, k);
      WeightNext(i - k - 1);
      WeightNext(i - 1);
      RightInner(Val(s0), x[i], h, l, Weight(i - k - 1), Weight(k), Pow2(sh), Weight(i - 1));
    } else if i == k {
      ValUpdate(s1, 0, h);
      WeightNext(0);
      RightFirst(Val(s0), x[k], h, Weight(k), Pow2(sh));
    }
  }

  lemma {:induction false} RightFirst(v: int, x: int, h: int, wk: int, q: int)
    ensures (v + h) * (wk * q) + (x - h * q) * wk == v * (wk * q) + x * wk
  {
    assert (v + h) * (wk * q) == v * (wk * q) + h * q * wk;
    assert (x - h * q) * wk == x * wk - h * q * wk;
  }

  lemma {:induction false} RightInner(v: int, x: int, h: int, l: int, w: int, wk: int, q: int, wi1: int)
    requires l * q + h * q * BASE == x * BASE && wi1 == w * wk
    ensures (v + l * w + h * (BASE * w)) * (wk * q) == v * (wk * q) + x * (BASE * wi1)
  {
    assert (l * w + h * (BASE * w)) * (wk * q) == (l * q + h * q * BASE) * (w * wk) by {
      assert l * w * (wk * q) == l * q * (w * wk);
      assert h * (BASE * w) * (wk * q) == h * q * BASE * (w * wk);
      assert (l * w + h * (BASE * w)) * (wk * q) == l * w * (wk * q) + h * (BASE * w) * (wk * q);
      assert (l * q + h * q * BASE) * (w * wk) == l * q * (w * wk) + h * q * BASE * (w * wk);
    }
    assert x * (BASE * wi1) == x * BASE * wi1;
    var e := l * w + h * (BASE * w);
    assert (v + e) * (wk * q) == v * (wk * q) + e * (wk * q);
  }

  method ShiftRightLimb(pn: array<Limb>, ghost x: seq<Limb>, xi: Limb, i: nat, k: nat, sh: nat)
    requires sh < 32 && i < |x| == pn.Length && xi == x[i] && RightClear(pn[..], i, k, sh)
    requires Val(pn[..]) * Pow2(32 * k + sh) + Dropped(x, i, k, sh) == Val(x[..i])
    modifies pn
    ensures RightClear(pn[..], i + 1, k, sh)
    ensures Val(pn[..]) * Pow2(32 * k + sh) + Dropped(x, i + 1, k, sh) == Val(x[..i + 1])
  {
    hide Val, Weight, Pow2, Upper, Lower, Dropped, RightClear, Or;
    ghost var before := pn[..];
    var h, l := Upper(xi, sh), Lower(xi, sh);
    RoomToTheRight(before, i, k, sh);
    if i - k - 1 >= 0 && sh != 0 {
      pn[i - k - 1] := Or(pn[i - k - 1], l, 32 - sh);
    }
    ghost var middle := pn[..];
    assert middle == if i - k - 1 >= 0 && sh != 0 then before[i - k - 1 := Or(before[i - k - 1], l, 32 - sh)] else before;
    if i - k >= 0 {
      pn[i - k] := Or(pn[i - k], h, 0);
    }
    assert pn[..] == if i - k >= 0 then middle[i - k := Or(middle[i - k], h, 0)] else middle;
    RightWritten(before, middle, pn[..], x, h, l, i, k, sh);
  }

  lemma {:induction false} RoomToTheRight(s: seq<Limb>, i: nat, k: nat, sh: nat)
    requires sh < 32 && i < |s| && RightClear(s, i, k, sh)
    ensures i - k - 1 >= 0 ==> s[i - k - 1] < Pow2(32 - sh)
    ensures i - k >= 0 ==> s[i - k] == 0
    ensures Pow2(0) == 1
  {
  }

  lemma {:induction false} RightWritten(before: seq<Limb>, middle: seq<Limb>, after: seq<Limb>, x: seq<Limb>, h: Limb, l: Limb,
                                        i: nat, k: nat, sh: nat)
    requires sh < 32 && i < |x| == |before| && RightClear(before, i, k, sh) && h == Upper(x[i], sh) && l == Lower(x[i], sh)
    requires Val(before) * Pow2(32 * k + sh) + Dropped(x, i, k, sh) == Val(x[..i])
    requires i - k - 1 >= 0 && sh != 0 ==>
      before[i - k - 1] < Pow2(32 - sh) && middle == before[i - k - 1 := Or(before[i - k - 1], l, 32 - sh)]
    requires !(i - k - 1 >= 0 && sh != 0) ==> middle == before
    requires i - k >= 0 ==> middle[i - k] < Pow2(0) && after == middle[i - k := Or(middle[i - k], h, 0)]
    requires i - k < 0 ==> after == middle
    ensures RightClear(after, i + 1, k, sh)
    ensures Val(after) * Pow2(32 * k + sh) + Dropped(x, i + 1, k, sh) == Val(x[..i + 1])
  {
    assert Pow2(0) == 1;
    hide Val, Weight, Pow2, Upper, Lower, Dropped;
    assert i - k >= 0 ==> after == middle[i - k := h];
    RightStaysClear(before, middle, after, h, i, k, sh);
    hide RightClear;
    assert i - k - 1 >= 0 && sh == 0 ==> before[i - k - 1 := before[i - k - 1] + l] == before;
    RightStep(before, middle, after, x, h, l, i, k, sh);
  }

  lemma {:induction false} RightStaysClear(before: seq<Limb>, middle: seq<Limb>, after: seq<Limb>, h: Limb, i: nat, k: nat, sh: nat)
    requires sh < 32 && i < |before| == |middle| == |after| && RightClear(before, i, k, sh) && h < Pow2(32 - sh)
    requires forall j :: i - k <= j < |before| && 0 <= j ==> middle[j] == before[j]
    requires after == if i - k >= 0 then middle[i - k := h] else middle
    ensures RightClear(after, i + 1, k, sh)
  {
    hide Pow2;
  }

  method ShiftRightAssign(pn: array<Limb>, shift: nat)
    modifies pn
    ensures Val(pn[..]) == old(Val(pn[..])) / Pow2(shift)
  {
    hide Val, Weight, Pow2, Upper, Lower;
    var a := Copy(pn);
    ghost var x := pn[..];
    Clear(pn);
    var k, sh, i := shift / 32, shift % 32, 0;
    assert Val(x[..0]) == 0 by { ValZero(x[..0]); }
    assert 0 * Pow2(shift) == 0;
    while i < pn.Length
      invariant 0 <= i <= pn.Length && a[..] == x && RightClear(pn[..], i, k, sh)
      invariant Val(pn[..]) * Pow2(shift) + Dropped(x, i, k, sh) == Val(x[..i])
    {
      assert a[i] == a[..][i];
      ShiftRightLimb(pn, x, a[i], i, k, sh);
      i := i + 1;
    }
    assert x[..i] == x;
    DroppedSmall(x, i, k, sh);
    DivUnique(Val(x), Val(pn[..]), Dropped(x, i, k, sh), Pow2(shift));
  }

  // ---- division ----

  // The quotient so far has no bit below bit t.
  ghost predicate BitsFrom(s: seq<Limb>, t: nat) {
    && (forall i :: 0 <= i < t / 32 && i < |s| ==> s[i] == 0)
    && (t / 32 < |s| ==> s[t / 32] % Pow2(t % 32) == 0)
  }

  lemma {:induction false} PowStep(t: nat)
    requires t % 32 != 0
    ensures Pow2(t % 32) == 2 * Pow2((t - 1) % 32) && (t - 1) / 32 == t / 32
  {
  }

  lemma {:induction false} StillMultiple(x: int, p: int)
    requires p > 0 && x % (2 * p) == 0
    ensures x % p == 0 && (x + p) % p == 0
  {
    var q := x / (2 * p);
    assert x == 2 * q * p;
    DivUnique(x, 2 * q, 0, p);
    assert (2 * q + 1) * p == 2 * q * p + p;
    DivUnique(x + p, 2 * q + 1, 0, p);
  }

  // The bit below is clear, so it can be set.
  lemma {:induction false} BitBelow(s: seq<Limb>, t: nat)
    requires t > 0 && (t - 1) / 32 < |s| && BitsFrom(s, t)
    ensures BitsFrom(s, t - 1)
    ensures var i := (t - 1) / 32; s[i] % Pow2((t - 1) % 32) == 0 && s[i] + Pow2((t - 1) % 32) < BASE
    ensures var i := (t - 1) / 32; (s[i] + Pow2((t - 1) % 32)) % Pow2((t - 1) % 32) == 0
  {
    var i, p := (t - 1) / 32, Pow2((t - 1) % 32);
    PowConstants();
    PowMono((t - 1) % 32, 31);
    if t % 32 == 0 {
      assert s[i] == 0;
      DivUnique(0, 0, 0, p);
      DivUnique(p, 1, 0, p);
    } else {
      PowStep(t);
      hide Pow2;
      StillMultiple(s[i], p);
      RoomForBit(s[i], t % 32);
    }
  }

  lemma {:induction false} RoomForBit(x: Limb, k: nat)
    requires k <= 32 && x % Pow2(k) == 0
    ensures x as int + Pow2(k) <= BASE
  {
    OrFits(Pow2(k) - 1, x, k) by {
      PowConstants();
      PowMono(k, 32);
    }
  }

  lemma {:induction false} SetBitStep(s: seq<Limb>, shift: nat, x: Limb)
    requires shift / 32 < |s| && BitsFrom(s, shift) && x == s[shift / 32] + Pow2(shift % 32) && x % Pow2(shift % 32) == 0
    ensures BitsFrom(s[shift / 32 := x], shift) && Val(s[shift / 32 := x]) == Val(s) + Pow2(shift)
  {
    hide Val, Pow2;
    var i := shift / 32;
    ValUpdate(s, i, x);
    assert Pow2(32 * i + shift % 32) == Weight(i) * Pow2(shift % 32) by { WeightPow(i, shift % 32); }
    assert 32 * i + shift % 32 == shift;
  }

  method SetBit(pn: array<Limb>, shift: nat)
    requires shift / 32 < pn.Length && BitsFrom(pn[..], shift + 1)
    modifies pn
    ensures BitsFrom(pn[..], shift) && Val(pn[..]) == old(Val(pn[..])) + Pow2(shift)
  {
    hide Val, Pow2, BitsFrom;
    var i := shift / 32;
    BitBelow(pn[..], shift + 1);
    var x: Limb := pn[i] + Pow2(shift % 32);
    SetBitStep(pn[..], shift, x);
    ghost var before := pn[..];
    pn[i] := x;
    assert pn[..] == before[i := x];
  }

  // One turn: the divisor is d shifted by the bit to be decided.
  method DivideStep(pn: array<Limb>, num: array<Limb>, div: array<Limb>, shift: nat, ghost d: nat)
    requires pn != num && num != div && pn != div && pn.Length == num.Length == div.Length
    requires shift / 32 < pn.Length && BitsFrom(pn[..], shift + 1) && d > 0
    requires Val(div[..]) == d * Pow2(shift) && Val(num[..]) < 2 * Val(div[..])
    modifies pn, num, div
    ensures BitsFrom(pn[..], shift) && Val(num[..]) < d * Pow2(shift)
    ensures Val(pn[..]) * d + Val(num[..]) == old(Val(pn[..])) * d + old(Val(num[..]))
    ensures shift > 0 ==> Val(div[..]) == d * Pow2(shift - 1)
  {
    hide Val, Weight, BitsFrom, Pow2;
    ghost var q, n, v := Val(pn[..]), Val(num[..]), Val(div[..]);
    var c := CompareTo(num, div);
    if c >= 0 {
      ValBound(num[..]);
      SubAssign(num, div);
      DivUnique(n - v, 0, n - v, Modulus(num));
      SetBit(pn, shift);
      TakeBit(q, Pow2(shift), d);
    } else {
      BitBelow(pn[..], shift + 1);
    }
    ShiftRightAssign(div, 1);
    if shift > 0 {
      HalfShifted(d, shift);
    }
  }

  lemma {:induction false} TakeBit(q: int, p: int, d: int)
    ensures (q + p) * d == q * d + d * p
  {
  }

  lemma {:induction false} HalfShifted(d: nat, shift: nat)
    requires shift > 0
    ensures d * Pow2(shift) / Pow2(1) == d * Pow2(shift - 1)
  {
    assert Pow2(1) == 2 && Pow2(shift) == 2 * Pow2(shift - 1);
    hide Pow2;
    var p := Pow2(shift - 1);
    assert d * (2 * p) == (d * p) * 2;
    DivUnique(d * Pow2(shift), d * p, 0, 2);
  }

  lemma {:induction false} NextPower(d: int, shift: nat)
    ensures d * Pow2(shift + 1) == 2 * (d * Pow2(shift)) && d * Pow2(0) == d
  {
    assert d * (2 * Pow2(shift)) == 2 * (d * Pow2(shift));
  }

  // The loop from the highest bit of the quotient down.
  method DivideLoop(pn: array<Limb>, num: array<Limb>, div: array<Limb>, high: nat, ghost n: nat, ghost d: nat)
    requires pn != num && num != div && pn != div && pn.Length == num.Length == div.Length
    requires high / 32 < pn.Length && BitsFrom(pn[..], high + 1) && Val(pn[..]) == 0 && d > 0
    requires Val(num[..]) == n < d * Pow2(high + 1) && Val(div[..]) == d * Pow2(high)
    modifies pn, num, div
    ensures Val(pn[..]) == n / d
  {
    hide Val, Weight, BitsFrom, Pow2;
    var shift := high;
    assert 0 * d == 0;
    while shift >= 0
      invariant -1 <= shift <= high
      invariant shift >= 0 ==> Val(div[..]) == d * Pow2(shift)
      invariant BitsFrom(pn[..], shift + 1)
      invariant Val(num[..]) < d * Pow2(shift + 1)
      invariant Val(pn[..]) * d + Val(num[..]) == n
    {
      NextPower(d, shift);
      DivideStep(pn, num, div, shift, d);
      shift := shift - 1;
    }
    NextPower(d, 0);
    DivUnique(n, Val(pn[..]), Val(num[..]), d);
  }

  // The exact quotient; not ok is the uint_error for division by zero.
  method DivAssign(pn: array<Limb>, b: array<Limb>) returns (ok: bool)
    requires pn.Length == b.Length
    modifies pn
    ensures ok <==> old(Val(b[..])) != 0
    ensures ok ==> Val(pn[..]) == old(Val(pn[..])) / old(Val(b[..]))
  {
    assert Pow2(0) == 1;
    hide Val, Weight, BitsFrom, Pow2;
    ghost var n, d := Val(pn[..]), Val(b[..]);
    var div := Copy(b);
    var num := Copy(pn);
    Clear(pn);
    var numBits := Bits(num);
    var divBits := Bits(div);
    if divBits == 0 {
      return false;
    }
    if divBits > numBits {
      PowMono(numBits, divBits - 1);
      DivUnique(n, 0, n, d);
      return true;
    }
    LongDivision(pn, num, div, numBits, divBits, n, d);
    ok := true;
  }

  method LongDivision(pn: array<Limb>, num: array<Limb>, div: array<Limb>, numBits: nat, divBits: nat, ghost n: nat, ghost d: nat)
    requires pn != num && num != div && pn != div && pn.Length == num.Length == div.Length
    requires 0 < divBits <= numBits <= 32 * pn.Length && (forall i :: 0 <= i < pn.Length ==> pn[i] == 0)
    requires Val(pn[..]) == 0 && Val(num[..]) == n < Pow2(numBits) && Val(div[..]) == d
    requires d > 0 && Pow2(divBits - 1) <= d < Pow2(divBits)
    modifies pn, num, div
    ensures Val(pn[..]) == n / d
  {
    hide Val, Weight, BitsFrom, Pow2;
    var shift := numBits - divBits;
    ShiftFits(d, divBits, shift, pn.Length);
    ShiftLeftAssign(div, shift);
    ShiftCovers(n, d, divBits, shift);
    ClearBits(pn[..], shift + 1);
    DivideLoop(pn, num, div, shift, n, d);
  }

  lemma {:induction false} ShiftFits(d: nat, divBits: nat, shift: nat, width: nat)
    requires d < Pow2(divBits) && divBits + shift <= 32 * width
    ensures d * Pow2(shift) % Weight(width) == d * Pow2(shift)
  {
    PowAdd(divBits, shift);
    PowMono(divBits + shift, 32 * width);
    hide Pow2;
    MulMono(d + 1, Pow2(divBits), Pow2(shift));
    MulMono(0, d, Pow2(shift));
    assert (d + 1) * Pow2(shift) == d * Pow2(shift) + Pow2(shift);
    DivUnique(d * Pow2(shift), 0, d * Pow2(shift), Weight(width));
  }

  lemma {:induction false} ShiftCovers(n: int, d: nat, divBits: nat, shift: nat)
    requires divBits > 0 && Pow2(divBits - 1) <= d && n < Pow2(divBits + shift)
    ensures n < d * Pow2(shift + 1)
  {
    PowAdd(divBits - 1, shift + 1);
    MulMono(Pow2(divBits - 1), d, Pow2(shift + 1));
  }

  lemma {:induction false} ClearBits(s: seq<Limb>, t: nat)
    requires forall i :: 0 <= i < |s| ==> s[i] == 0
    ensures BitsFrom(s, t)
  {
    hide Pow2;
    DivUnique(0, 0, 0, Pow2(t % 32));
  }
}
