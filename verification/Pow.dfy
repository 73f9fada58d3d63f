// Compact targets (src/arith_uint256.cpp), retargeting and the proof-of-work check
// (src/pow.cpp) and the work of a block (src/chain.cpp), on the limb arithmetic.

module CompactTarget {
  import opened Basics
  import opened Limbs
  import opened BaseUint

  const WIDTH := 8

  // A 256-bit number.
  predicate Is256(pn: array<Limb>) {
    pn.Length == WIDTH
  }

  // The three parts of a compact number.
  function Exponent(n: nat): nat {
    n / 0x1000000
  }

  function Mantissa(n: nat): nat {
    n % 0x800000
  }

  predicate SignBit(n: nat) {
    n / 0x800000 % 2 == 1
  }

  // What a compact number stands for, sign apart, before it is cut to 256 bits.
  ghost function Encoded(n: nat): nat {
    if Exponent(n) <= 3 then DivNonNegative(Mantissa(n), Pow2(8 * (3 - Exponent(n)))); Mantissa(n) / Pow2(8 * (3 - Exponent(n)))
    else MulMono(0, Mantissa(n), Pow2(8 * (Exponent(n) - 3))); Mantissa(n) * Pow2(8 * (Exponent(n) - 3))
  }

  lemma {:induction false} DivNonNegative(x: int, p: int)
    requires x >= 0 && p > 0
    ensures x / p >= 0
  {
  }

  // A compact number is put together from a byte, a sign and 23 bits, and stands for those bits
  // times 256 to the byte less three, rounded down.
  lemma {:induction false} CompactParts(size: nat, sign: bool, word: nat)
    requires word < 0x800000
    ensures var n := size * 0x1000000 + (if sign then 0x800000 else 0) + word;
            && Exponent(n) == size && Mantissa(n) == word && SignBit(n) == sign
            && (size >= 3 ==> Encoded(n) == word * Pow2(8 * (size - 3)))
            && (size < 3 ==> Encoded(n) * Pow2(8 * (3 - size)) <= word < (Encoded(n) + 1) * Pow2(8 * (3 - size)))
  {
    var b := if sign then 1 else 0;
    var n := size * 0x1000000 + b * 0x800000 + word;
    DivUnique(n, size, b * 0x800000 + word, 0x1000000);
    DivUnique(n, 2 * size + b, word, 0x800000);
    DivUnique(2 * size + b, size, b, 2);
    hide Exponent, Mantissa, SignBit;
    assert Pow2(0) == 1;
    hide Pow2;
    if size < 3 {
      QuotientBounds(word, Pow2(8 * (3 - size)));
    } else if size == 3 {
      DivUnique(word, word, 0, 1);
    }
  }

  lemma {:induction false} QuotientBounds(x: nat, p: nat)
    requires p > 0
    ensures x / p * p <= x < (x / p + 1) * p
  {
    assert x == x / p * p + x % p;
    assert (x / p + 1) * p == x / p * p + p;
  }

  // The number of low bits that a compact number with this exponent cannot hold.
  ghost function LostBits(n: nat): nat {
    if Exponent(n) <= 3 then 0 else 8 * (Exponent(n) - 3)
  }

  method FromU64(b: nat) returns (pn: array<Limb>)
    requires b < BASE * BASE
    ensures fresh(pn) && Is256(pn) && Val(pn[..]) == b
  {
    pn := new Limb[WIDTH];
    Clear(pn);
    ghost var zero := pn[..];
    var low: Limb, high: Limb := b % BASE, b / BASE;
    pn[0], pn[1] := low, high;
    ghost var one: seq<Limb> := zero[0 := low];
    assert pn[..] == one[1 := high];
    hide Val, Weight;
    ValUpdate(zero, 0, low);
    ValUpdate(one, 1, high);
    WeightNext(0);
  }

  method GetLow64(pn: array<Limb>) returns (b: nat)
    requires Is256(pn)
    ensures Val(pn[..]) < BASE * BASE ==> b == Val(pn[..])
  {
    hide Val, Weight;
    b := pn[0] + pn[1] * BASE;
    var s := pn[..];
    assert s == s[..2] + s[2..];
    ValAppend(s[..2], s[2..]);
    ValPrefix(s, 0);
    ValPrefix(s, 1);
    ValZero(s[..0]);
    WeightNext(0);
    WeightNext(1);
    if Val(s[2..]) >= 1 {
      MulMono(1, Val(s[2..]), Weight(2));
    } else {
      assert Weight(2) * 0 == 0;
    }
  }

  // ---- from a compact number ----

  // 2 to the 256, as powers of bytes.
  lemma {:induction false} OverflowBound(word: nat, size: nat)
    requires word < 0x800000 && size > 3
    ensures word * Pow2(8 * (size - 3)) >= Weight(WIDTH) <==>
      word != 0 && (size > 34 || (word > 0xff && size > 33) || (word > 0xffff && size > 32))
  {
    PowConstants();
    assert Pow2(0) == 1;
    hide Pow2;
    var bits := 8 * (size - 3);
    if bits > 256 {
      PowMono(256, bits);
      ScaledAtLeast(word, 1, Pow2(bits));
    } else {
      PowAdd(256 - bits, bits);
      ScaledAtLeast(word, Pow2(256 - bits), Pow2(bits));
      if size <= 32 {
        PowMono(24, 256 - bits);
      }
    }
  }

  lemma {:induction false} ScaledAtLeast(x: nat, t: nat, p: nat)
    requires p > 0
    ensures x * p >= t * p <==> x >= t
    ensures x == 0 ==> x * p == 0
  {
    if x >= t {
      MulMono(t, x, p);
    } else {
      MulMono(x + 1, t, p);
      assert (x + 1) * p == x * p + p;
    }
  }

  // The flags tell exactly when the number is negative and when it does not fit.
  method SetCompact(nCompact: nat) returns (pn: array<Limb>, negative: bool, overflow: bool)
    requires nCompact < BASE
    ensures fresh(pn) && Is256(pn) && Val(pn[..]) == Encoded(nCompact) % Weight(WIDTH)
    ensures negative <==> Encoded(nCompact) != 0 && SignBit(nCompact)
    ensures overflow <==> Encoded(nCompact) >= Weight(WIDTH)
  {
    hide Val, Weight, Pow2;
    var nSize, nWord := Exponent(nCompact), Mantissa(nCompact);
    if nSize <= 3 {
      SmallWord(nWord, 3 - nSize);
      nWord := nWord / Pow2(8 * (3 - nSize));
      pn := FromU64(nWord);
      DivUnique(nWord, 0, nWord, Weight(WIDTH));
    } else {
      pn := FromU64(nWord);
      ShiftLeftAssign(pn, 8 * (nSize - 3));
      OverflowBound(nWord, nSize);
      ScaledAtLeast(nWord, 1, Pow2(8 * (nSize - 3)));
    }
    hide Exponent, Mantissa, SignBit;
    negative := nWord != 0 && SignBit(nCompact);
    overflow := nWord != 0 && (nSize > 34 || (nWord > 0xff && nSize > 33) || (nWord > 0xffff && nSize > 32));
  }

  lemma {:induction false} SmallWord(word: nat, n: nat)
    requires word < 0x800000
    ensures 0 <= word / Pow2(8 * n) <= word < Weight(WIDTH)
  {
    PowConstants();
    PowMono(32, 256);
    hide Pow2;
    QuotientAtMost(word, Pow2(8 * n));
  }

  lemma {:induction false} QuotientAtMost(x: nat, p: nat)
    requires p > 0
    ensures 0 <= x / p <= x
  {
    var q := x / p;
    assert x == q * p + x % p;
    if q >= 0 {
      MulMono(1, p, q);
    }
  }

  // ---- to a compact number ----

  lemma {:induction false} DivDiv(x: int, a: int, b: int)
    requires a > 0 && b > 0
    ensures x / a / b == x / (a * b)
  {
    var q, r := x / a, x % a;
    var s, t := q / b, q % b;
    DivUniqueBack(x, a);
    DivUniqueBack(q, b);
    Regroup(x, q, s, b, t, a, r);
    RemainderFits(t, b, a, r);
    DivUnique(x, s, t * a + r, a * b);
  }

  lemma {:induction false} DivUniqueBack(x: int, m: int)
    requires m > 0
    ensures x == (x / m) * m + x % m && 0 <= x % m < m
  {
  }

  lemma {:induction false} Regroup(x: int, q: int, s: int, b: int, t: int, a: int, r: int)
    requires x == q * a + r && q == s * b + t
    ensures x == s * (a * b) + (t * a + r)
  {
    assert (s * b + t) * a == s * (a * b) + t * a;
  }

  lemma {:induction false} RemainderFits(t: int, b: int, a: int, r: int)
    requires 0 <= t < b && 0 <= r < a
    ensures 0 <= t * a + r < a * b
  {
    MulMono(t + 1, b, a);
    MulMono(0, t, a);
    assert (t + 1) * a == t * a + a;
  }

  lemma {:induction false} MulDiv(x: int, p: int)
    requires p > 0
    ensures x * p / p == x
  {
    DivUnique(x * p, x, 0, p);
  }

  // The mantissa for a number of size bytes: its three highest bytes.
  ghost function Top(x: nat, size: nat): int {
    if size <= 3 then x * Pow2(8 * (3 - size)) else x / Pow2(8 * (size - 3))
  }

  lemma {:induction false} TopFits(x: nat, size: nat)
    requires x < Pow2(8 * size) && (size > 0 ==> Pow2(8 * (size - 1)) <= x)
    ensures 0 <= Top(x, size) < 0x1000000 && (size > 0 ==> Top(x, size) >= 0x10000)
  {
    PowConstants();
    hide Pow2;
    if size == 0 {
      PowAdd(0, 24);
      ZeroTop(x);
    } else if size <= 3 {
      PowAdd(8 * size, 8 * (3 - size));
      PowAdd(8 * (size - 1), 8 * (3 - size));
      MulMono(x + 1, Pow2(8 * size), Pow2(8 * (3 - size)));
      MulMono(Pow2(8 * (size - 1)), x, Pow2(8 * (3 - size)));
      assert (x + 1) * Pow2(8 * (3 - size)) == x * Pow2(8 * (3 - size)) + Pow2(8 * (3 - size));
    } else {
      PowAdd(24, 8 * (size - 3));
      PowAdd(16, 8 * (size - 3));
      DivRange(x, Pow2(16), Pow2(24), Pow2(8 * (size - 3)));
    }
  }

  lemma {:induction false} ZeroTop(x: nat)
    requires x < Pow2(0)
    ensures x == 0 && 0 * Pow2(24) == 0
  {
  }

  lemma {:induction false} DivRange(x: int, lo: int, hi: int, p: int)
    requires p > 0 && lo * p <= x < hi * p
    ensures lo <= x / p < hi
  {
    var q := x / p;
    assert x == q * p + x % p;
    assert (q + 1) * p == q * p + p;
    if q < lo {
      MulMono(q + 1, lo, p);
    }
    if q >= hi {
      MulMono(hi, q, p);
    }
  }

  // A compact number that holds x but for the lost bits, with a mantissa of 16 bits or more.
  ghost predicate Holds(n: nat, x: nat) {
    && Encoded(n) == x / Pow2(LostBits(n)) * Pow2(LostBits(n))
    && (Exponent(n) > 3 ==> x / Pow2(LostBits(n)) >= 0x8000)
  }

  lemma {:induction false} Assembled(m: nat, size: nat)
    requires m < 0x800000 && size < 256
    ensures Exponent(size * 0x1000000 + m) == size && Mantissa(size * 0x1000000 + m) == m
    ensures !SignBit(size * 0x1000000 + m) && size * 0x1000000 + m < BASE
  {
    DivUnique(size * 0x1000000 + m, size, m, 0x1000000);
    DivUnique(size * 0x1000000 + m, 2 * size, m, 0x800000);
  }

  lemma {:induction false} DirectHolds(x: nat, size: nat, n: nat)
    requires Top(x, size) < 0x800000 && Exponent(n) == size && Mantissa(n) == Top(x, size)
    requires size > 3 ==> Top(x, size) >= 0x8000
    ensures Holds(n, x)
  {
    assert Pow2(0) == 1;
    hide Pow2;
    if size <= 3 {
      MulDiv(x, Pow2(8 * (3 - size)));
    }
  }

  lemma {:induction false} ShiftedHolds(x: nat, size: nat, n: nat)
    requires 0x800000 <= Top(x, size) && Exponent(n) == size + 1 && Mantissa(n) == Top(x, size) / 0x100
    ensures Holds(n, x)
  {
    assert Pow2(0) == 1;
    PowConstants();
    hide Pow2;
    if size <= 2 {
      PowAdd(8, 8 * (2 - size));
      DivDiv(Top(x, size), 0x100, Pow2(8 * (2 - size)));
      MulDiv(x, Pow2(8 * (3 - size)));
    } else if size == 3 {
      assert x * 1 == x;
    } else {
      PowAdd(8 * (size - 3), 8);
      DivDiv(x, Pow2(8 * (size - 3)), 0x100);
    }
  }

  // The three highest bytes of a 256-bit number; both asserts of GetCompact hold.
  method TopBytes(pn: array<Limb>, nSize: nat) returns (word: nat)
    requires Is256(pn) && Val(pn[..]) < Pow2(8 * nSize) && (nSize > 0 ==> Pow2(8 * (nSize - 1)) <= Val(pn[..]))
    ensures word == Top(Val(pn[..]), nSize)
  {
    hide Val, Weight;
    ghost var x := Val(pn[..]);
    TopFits(x, nSize);
    if nSize <= 3 {
      PowMono(8 * nSize, 24);
      PowConstants();
      var low := GetLow64(pn);
      word := low * Pow2(8 * (3 - nSize));
    } else {
      var bn := Copy(pn);
      ShiftRightAssign(bn, 8 * (nSize - 3));
      word := GetLow64(bn);
    }
  }

  method GetCompact(pn: array<Limb>, fNegative: bool) returns (nCompact: nat)
    requires Is256(pn)
    ensures nCompact < BASE && Holds(nCompact, Val(pn[..]))
    ensures SignBit(nCompact) <==> fNegative && Mantissa(nCompact) != 0
  {
    hide Val, Weight, Pow2, Holds, Top, Exponent, Mantissa, SignBit;
    ghost var x := Val(pn[..]);
    var bits := Bits(pn);
    var nSize := (bits + 7) / 8;
    BytesOfBits(x, bits);
    TopFits(x, nSize);
    var word := TopBytes(pn, nSize);
    ghost var size := nSize;
    if word >= 0x800000 {
      word, nSize := word / 0x100, nSize + 1;
    }
    assert word < 0x800000 && nSize < 256;
    nCompact := nSize * 0x1000000 + word;
    Assembled(word, nSize);
    if nSize == size {
      DirectHolds(x, nSize, nCompact);
    } else {
      ShiftedHolds(x, size, nCompact);
    }
    if fNegative && word != 0 {
      Signed(nCompact, x);
      nCompact := nCompact + 0x800000;
    }
  }

  lemma {:induction false} Signed(n: nat, x: nat)
    requires n < BASE && !SignBit(n) && Holds(n, x)
    ensures n + 0x800000 < BASE && SignBit(n + 0x800000) && Mantissa(n + 0x800000) == Mantissa(n) && Holds(n + 0x800000, x)
  {
    SignedParts(n);
    hide Pow2, Exponent, Mantissa;
  }

  lemma {:induction false} SignedParts(n: nat)
    requires n < BASE && !SignBit(n)
    ensures n + 0x800000 < BASE && SignBit(n + 0x800000)
    ensures Mantissa(n + 0x800000) == Mantissa(n) && Exponent(n + 0x800000) == Exponent(n)
  {
    DivUnique(n + 0x800000, n / 0x800000 + 1, n % 0x800000, 0x800000);
  }

  lemma {:induction false} BytesOfBits(x: nat, bits: nat)
    requires bits <= 256 && x < Pow2(bits) && (bits > 0 ==> Pow2(bits - 1) <= x)
    ensures var size := (bits + 7) / 8;
            size <= 32 && x < Pow2(8 * size) && (size > 0 ==> Pow2(8 * (size - 1)) <= x)
  {
    var size := (bits + 7) / 8;
    PowMono(bits, 8 * size);
    if size > 0 {
      PowMono(8 * (size - 1), bits - 1);
    }
  }
}

module ProofOfWork {
  import opened Basics
  import opened Limbs
  import opened BaseUint
  import opened CompactTarget

  // A target that the check accepts under a limit.
  ghost predicate InRange(nBits: nat, limit: int) {
    Encoded(nBits) != 0 && !SignBit(nBits) && Encoded(nBits) <= limit
  }

  method CheckProofOfWork(hash: array<Limb>, nBits: nat, powLimit: array<Limb>) returns (ok: bool)
    requires Is256(hash) && Is256(powLimit) && nBits < BASE
    ensures ok <==> InRange(nBits, Val(powLimit[..])) && Val(hash[..]) <= Encoded(nBits)
  {
    hide Val, Weight, Encoded, SignBit;
    var target, negative, overflow := SetCompact(nBits);
    ValBound(powLimit[..]);
    if overflow {
      return false;
    }
    DivUnique(Encoded(nBits), 0, Encoded(nBits), Weight(WIDTH));
    var zero := FromU64(0);
    var isZero := CompareTo(target, zero);
    var c := CompareTo(target, powLimit);
    if negative || isZero == 0 || c > 0 {
      return false;
    }
    var d := CompareTo(hash, target);
    ok := d <= 0;
  }

  // ---- the work of a block ----

  // 2^256 / (target + 1) for a valid target, although 2^256 itself does not fit.
  method GetBlockProof(nBits: nat) returns (work: array<Limb>)
    requires nBits < BASE
    ensures Is256(work)
    ensures Val(work[..]) ==
      if InRange(nBits, Weight(WIDTH) - 1) then Weight(WIDTH) / (Encoded(nBits) + 1) else 0
  {
    hide Val, Weight, Encoded, SignBit;
    var target, negative, overflow := SetCompact(nBits);
    if overflow {
      work := FromU64(0);
      return;
    }
    ghost var t, m := Encoded(nBits), Weight(WIDTH);
    DivUnique(t, 0, t, m);
    work := FromU64(0);
    var isZero := CompareTo(target, work);
    if negative || isZero == 0 {
      return;
    }
    assert t < m - 1 by { NotAllOnes(nBits); }
    var one := FromU64(1);
    work := Complement(target);
    AddAssign(target, one);
    DivUnique(t + 1, 0, t + 1, m);
    var ok := DivAssign(work, target);
    WorkFits(t, m);
    AddAssign(work, one);
    DivUnique(m / (t + 1), 0, m / (t + 1), m);
  }

  lemma {:induction false} WorkFits(t: int, m: int)
    requires 0 < t && t + 1 < m
    ensures (m - 1 - t) / (t + 1) + 1 == m / (t + 1) && 0 <= m / (t + 1) < m
  {
    var q, r := (m - 1 - t) / (t + 1), (m - 1 - t) % (t + 1);
    assert m - 1 - t == q * (t + 1) + r;
    assert (q + 1) * (t + 1) == q * (t + 1) + (t + 1);
    DivUnique(m, q + 1, r, t + 1);
    if q < 0 {
      MulMono(q, -1, t + 1);
    }
    if q + 1 >= m {
      MulMono(m, q + 1, t + 1);
      MulMono(2, t + 1, m);
    }
  }

  // No compact number stands for 2^256 - 1.
  lemma {:induction false} NotAllOnes(n: nat)
    ensures Encoded(n) != Weight(WIDTH) - 1
  {
    PowConstants();
    PowMono(32, 256);
    PowAdd(255, 1);
    assert Pow2(1) == 2;
    if Exponent(n) <= 3 {
      hide Pow2;
      QuotientAtMost(Mantissa(n), Pow2(8 * (3 - Exponent(n))));
    } else {
      var k := 8 * (Exponent(n) - 3);
      assert Pow2(k) == 2 * Pow2(k - 1);
      hide Pow2;
      assert Mantissa(n) * (2 * Pow2(k - 1)) == 2 * (Mantissa(n) * Pow2(k - 1));
    }
  }

  // ---- retargeting ----

  // The elapsed time, held between a quarter and four times the target timespan.
  function Clamped(actual: int, timespan: nat): int {
    if actual < timespan / 4 then timespan / 4 else if actual > timespan * 4 then timespan * 4 else actual
  }

  // The new target: multiplied as a 32-bit number, divided, and cut to the limit.
  ghost function Retargeted(nBits: nat, actual: int, timespan: nat, limit: int): int
    requires timespan > 0
  {
    var t := Encoded(nBits) % Weight(WIDTH) * (Clamped(actual, timespan) % BASE) % Weight(WIDTH) / timespan;
    if t > limit then limit else t
  }

  method CalculateNextWorkRequired(nBits: nat, actual: int, timespan: nat, noRetargeting: bool, powLimit: array<Limb>)
    returns (next: nat)
    requires nBits < BASE && Is256(powLimit) && 0 < timespan < BASE * BASE
    ensures next < BASE
    ensures noRetargeting ==> next == nBits
    ensures !noRetargeting ==>
      && !SignBit(next) && Retargeted(nBits, actual, timespan, Val(powLimit[..])) >= 0
      && Holds(next, Retargeted(nBits, actual, timespan, Val(powLimit[..])))
  {
    hide Val, Weight, Encoded, SignBit, Holds, Pow2;
    if noRetargeting {
      return nBits;
    }
    var bnNew, negative, overflow := SetCompact(nBits);
    MulAssignLimb(bnNew, Clamped(actual, timespan) % BASE);
    var divisor := FromU64(timespan);
    var ok := DivAssign(bnNew, divisor);
    var c := CompareTo(bnNew, powLimit);
    if c > 0 {
      next := GetCompact(powLimit, false);
    } else {
      next := GetCompact(bnNew, false);
    }
  }

  lemma {:induction false} HeldIsBelow(n: nat, x: nat)
    requires Holds(n, x)
    ensures 0 <= Encoded(n) <= x && (x != 0 ==> Encoded(n) != 0)
  {
    assert Pow2(0) == 1;
    hide Pow2;
    var p := Pow2(LostBits(n));
    assert x == x / p * p + x % p;
    if Exponent(n) > 3 {
      ScaledAtLeast(x / p, 1, p);
    }
  }

  // A retargeted number is in range for the next check unless it is zero, and it is no
  // easier than four times the old target, also where the product is cut off.
  lemma {:induction false} RetargetIsChecked(nBits: nat, actual: int, timespan: nat, limit: int, next: nat)
    requires timespan > 0 && !SignBit(next) && Retargeted(nBits, actual, timespan, limit) >= 0
    requires Holds(next, Retargeted(nBits, actual, timespan, limit))
    ensures Retargeted(nBits, actual, timespan, limit) != 0 ==> InRange(next, limit)
    ensures 0 <= Encoded(next) <= limit && Encoded(next) <= 4 * Encoded(nBits)
  {
    hide Holds, Encoded, Weight, SignBit, Pow2;
    HeldIsBelow(next, Retargeted(nBits, actual, timespan, limit));
    assert Weight(WIDTH) > 0 by { WeightNext(WIDTH); }
    AtMostFourfold(Encoded(nBits), Clamped(actual, timespan), timespan, Weight(WIDTH));
  }

  lemma {:induction false} AtMostFourfold(t: int, c: int, timespan: int, m: int)
    requires 0 <= t && 0 < timespan && 0 <= c <= 4 * timespan && m > 0
    ensures t % m * (c % BASE) % m / timespan <= 4 * t
  {
    RemainderAtMost(t, m);
    RemainderAtMost(c, BASE);
    MulMono(t % m, t, c % BASE);
    MulMono(c % BASE, c, t);
    MulMono(c, 4 * timespan, t);
    MulMono(0, c % BASE, t % m);
    RemainderAtMost(t % m * (c % BASE), m);
    QuotientBelow(t % m * (c % BASE) % m, 4 * t, timespan);
  }

  lemma {:induction false} RemainderAtMost(x: int, m: int)
    requires x >= 0 && m > 0
    ensures 0 <= x % m <= x
  {
    assert x == x / m * m + x % m;
    if x / m < 0 {
      MulMono(x / m, -1, m);
    } else {
      MulMono(0, x / m, m);
    }
  }

  lemma {:induction false} QuotientBelow(x: int, y: int, p: int)
    requires p > 0 && x <= y * p
    ensures x / p <= y
  {
    var q := x / p;
    assert x == q * p + x % p;
    assert (y + 1) * p == y * p + p;
    if q > y {
      MulMono(y + 1, q, p);
    }
  }

  // ---- how the new target depends on the elapsed time ----

  ghost function Capped(t: int, limit: int): int {
    if t > limit then limit else t
  }

  // The floor of t * c / p.
  ghost function Share(t: int, c: int, p: nat): int
    requires p > 0
  {
    t * c / p
  }

  // The old target t times c over p, capped, is the new target r if and only if the product fits
  // into 256 bits or what is left of it still reaches the limit.
  ghost predicate Scales(t: int, c: int, p: nat, limit: int, r: int)
    requires p > 0
  {
    r == Capped(Share(t, c, p), limit) <==> t * c < Weight(WIDTH) || limit <= RemainderOf(t * c, Weight(WIDTH)) / p
  }

  ghost function RemainderOf(x: int, m: int): int {
    if m == 0 then 0 else x % m
  }

  // The old target is scaled by the elapsed time over the timespan, with the time taken to be a
  // quarter of the timespan if it is less and four times the timespan if it is more.
  lemma {:induction false} RetargetScales(nBits: nat, actual: int, timespan: nat, limit: int)
    requires 0 < timespan && 4 * timespan < BASE && limit >= 0
    ensures var old', r := RemainderOf(Encoded(nBits), Weight(WIDTH)), Retargeted(nBits, actual, timespan, limit);
            && (actual < timespan / 4 ==> Scales(old', timespan / 4, timespan, limit, r))
            && (timespan / 4 <= actual <= 4 * timespan ==> Scales(old', actual, timespan, limit, r))
            && (actual > 4 * timespan ==> Scales(old', 4 * timespan, timespan, limit, r))
  {
    hide Encoded, Weight, Pow2;
    var m := Weight(WIDTH);
    assert m >= BASE by { WideEnough(); }
    var old', c := Encoded(nBits) % m, Clamped(actual, timespan);
    assert 0 <= c <= 4 * timespan && c % BASE == c by { DivUnique(c, 0, c, BASE); }
    MulMono(0, old', c);
    assert Retargeted(nBits, actual, timespan, limit) == Capped(old' * c % m / timespan, limit);
    CutOff(old' * c, timespan, m, limit);
  }

  lemma {:induction false} WideEnough()
    ensures Weight(WIDTH) >= BASE
  {
    PowConstants();
    PowMono(32, 256);
  }

  // A quotient is smaller once the dividend has lost a multiple of a larger number.
  lemma {:induction false} CutOff(x: int, p: nat, m: int, limit: int)
    requires x >= 0 && 0 < p < BASE <= m
    ensures Capped(x % m / p, limit) == Capped(x / p, limit) <==> x < m || limit <= x % m / p
  {
    if x < m {
      DivUnique(x, 0, x, m);
    } else {
      var r := x % m;
      assert r + m <= x by {
        assert x == x / m * m + r;
        if x / m < 1 {
          MulMono(x / m, 0, m);
        }
        MulMono(1, x / m, m);
      }
      QuotientGrows(r, x, p);
    }
  }

  lemma {:induction false} QuotientGrows(x: int, y: int, p: nat)
    requires p > 0 && x + p <= y
    ensures x / p < y / p
  {
    assert x == x / p * p + x % p && y == y / p * p + y % p;
    if y / p <= x / p {
      MulMono(y / p, x / p, p);
    }
  }

  // Where the product fits: the exact new target for every elapsed time.
  lemma {:induction false} RetargetExact(nBits: nat, actual: int, timespan: nat, limit: int)
    requires 0 < timespan && 4 * timespan < BASE && limit >= 0 && Encoded(nBits) * (4 * timespan) < Weight(WIDTH)
    ensures var old', r := Encoded(nBits), Retargeted(nBits, actual, timespan, limit);
            && (timespan / 4 <= actual <= 4 * timespan ==> r == Capped(Share(old', actual, timespan), limit))
            && (actual < timespan / 4 ==> r == Capped(Share(old', timespan / 4, timespan), limit) && 4 * r <= old')
            && (actual < timespan / 4 && timespan % 4 == 0 ==> r == Capped(old' / 4, limit))
            && (actual > 4 * timespan ==> r == Capped(4 * old', limit))
            && (actual == timespan ==> r == Capped(old', limit))
  {
    hide Encoded, Weight, Pow2, Retargeted, Share;
    RetargetFits(nBits, actual, timespan, limit);
    ShareOfWhole(Encoded(nBits), timespan);
    ShareOfQuarter(Encoded(nBits), timespan);
  }

  lemma {:induction false} RetargetFits(nBits: nat, actual: int, timespan: nat, limit: int)
    requires 0 < timespan && 4 * timespan < BASE && limit >= 0 && Encoded(nBits) * (4 * timespan) < Weight(WIDTH)
    ensures var c := if actual < timespan / 4 then timespan / 4 else if actual > 4 * timespan then 4 * timespan else actual;
            Retargeted(nBits, actual, timespan, limit) == Capped(Share(Encoded(nBits), c, timespan), limit)
  {
    hide Encoded, Weight, Pow2, Retargeted, Share, RemainderOf;
    RetargetScales(nBits, actual, timespan, limit);
    var c := if actual < timespan / 4 then timespan / 4 else if actual > 4 * timespan then 4 * timespan else actual;
    ProductFits(Encoded(nBits), c, 4 * timespan, Weight(WIDTH));
  }

  lemma {:induction false} ProductFits(t: nat, c: int, high: int, m: int)
    requires c <= high && high >= 1 && t * high < m
    ensures t * c < m && RemainderOf(t, m) == t
  {
    MulMono(1, high, t);
    MulMono(c, high, t);
    DivUnique(t, 0, t, m);
  }

  lemma {:induction false} ShareOfWhole(t: nat, p: nat)
    requires p > 0
    ensures Share(t, p, p) == t && Share(t, 4 * p, p) == 4 * t
  {
    DivUnique(t * p, t, 0, p);
    DivUnique(t * (4 * p), 4 * t, 0, p);
  }

  lemma {:induction false} ShareOfQuarter(t: nat, p: nat)
    requires p > 0
    ensures 4 * Share(t, p / 4, p) <= t
    ensures p % 4 == 0 ==> Share(t, p / 4, p) == t / 4
  {
    var q := p / 4;
    var x := t * q;
    MulMono(4 * q, p, t);
    FourTimes(t, q);
    QuotientBelowFourth(x, t, p);
    if p % 4 == 0 {
      FourthExact(t, q);
    }
  }

  lemma {:induction false} FourTimes(t: int, q: int)
    ensures 4 * q * t == 4 * (t * q)
  {
  }

  lemma {:induction false} QuotientBelowFourth(x: int, t: int, p: nat)
    requires p > 0 && 4 * x <= p * t
    ensures 4 * (x / p) <= t
  {
    var k := x / p;
    assert x == k * p + x % p;
    if 4 * k > t {
      MulMono(t + 1, 4 * k, p);
      assert false;
    }
  }

  lemma {:induction false} FourthExact(t: nat, q: nat)
    requires q > 0
    ensures t * q / (4 * q) == t / 4
  {
    var u, r := t / 4, t % 4;
    assert t == 4 * u + r;
    assert (4 * u + r) * q == u * (4 * q) + r * q;
    MulMono(r, 3, q);
    MulMono(0, r, q);
    DivUnique(t * q, u, r * q, 4 * q);
  }

  // The new target does not fall as the elapsed time grows.
  lemma {:induction false} RetargetMonotone(nBits: nat, a: int, b: int, timespan: nat, limit: int)
    requires 0 < timespan && 4 * timespan < BASE && limit >= 0 && Encoded(nBits) * (4 * timespan) < Weight(WIDTH)
    requires a <= b
    ensures Retargeted(nBits, a, timespan, limit) <= Retargeted(nBits, b, timespan, limit)
  {
    hide Encoded, Weight, Pow2, Retargeted, Share;
    RetargetFits(nBits, a, timespan, limit);
    RetargetFits(nBits, b, timespan, limit);
    var low, high := timespan / 4, 4 * timespan;
    ShareMonotone(Encoded(nBits), if a < low then low else if a > high then high else a,
                  if b < low then low else if b > high then high else b, timespan);
  }

  lemma {:induction false} ShareMonotone(t: nat, x: int, y: int, p: nat)
    requires p > 0 && x <= y
    ensures Share(t, x, p) <= Share(t, y, p)
  {
    MulMono(x, y, t);
    assert t * x <= t * y;
    if t * y / p < t * x / p {
      QuotientOrder(t * x, t * y, p);
    }
  }

  lemma {:induction false} QuotientOrder(x: int, y: int, p: nat)
    requires p > 0 && y / p < x / p
    ensures y < x
  {
    assert x == x / p * p + x % p && y == y / p * p + y % p;
    MulMono(y / p + 1, x / p, p);
    assert (y / p + 1) * p == y / p * p + p;
  }

  // At the easiest compact target the product does not fit: blocks that take four times as long
  // lower the target instead of raising it.
  lemma {:induction false} RetargetWraps(limit: int)
    requires limit == Encoded(0x207fffff)
    ensures Retargeted(0x207fffff, 4 * 1209600, 1209600, limit) < Retargeted(0x207fffff, 1209600, 1209600, limit)
  {
    hide Encoded, Weight, Retargeted, Pow2;
    var w := Pow2(232);
    AtEasiest(limit, 1209600, 604799, 15567616);
    AtEasiest(limit, 4838400, 2419199, 11938816);
    QuotientGrows(11938816 * w, 15567616 * w, 1209600);
  }

  lemma {:induction false} Easiest()
    ensures Encoded(0x207fffff) == 8388607 * Pow2(232) && Weight(WIDTH) == 16777216 * Pow2(232)
  {
    PowConstants();
    PowAdd(24, 232);
    hide Pow2;
  }

  lemma {:induction false} AtEasiest(limit: int, actual: nat, q: nat, r: nat)
    requires limit == Encoded(0x207fffff) && 302400 <= actual <= 4838400
    requires 8388607 * actual == q * 16777216 + r && r < 16777216
    ensures Retargeted(0x207fffff, actual, 1209600, limit) == r * Pow2(232) / 1209600
  {
    Easiest();
    hide Encoded, Weight, Pow2;
    var w := Pow2(232);
    CutProduct(w, actual, q, r);
    var t := 8388607 * w;
    DivUnique(t, 0, t, 16777216 * w);
    MulMono(r, 16777216, w);
    QuotientBelow(r * w, t, 1209600);
  }

  lemma {:induction false} CutProduct(w: nat, c: nat, q: nat, r: nat)
    requires w > 0 && 8388607 * c == q * 16777216 + r && r < 16777216
    ensures 8388607 * w * c % (16777216 * w) == r * w
  {
    assert 8388607 * w * c == (8388607 * c) * w;
    assert (q * 16777216 + r) * w == q * (16777216 * w) + r * w;
    MulMono(r + 1, 16777216, w);
    MulMono(0, r, w);
    DivUnique(8388607 * w * c, q, r * w, 16777216 * w);
  }
}
