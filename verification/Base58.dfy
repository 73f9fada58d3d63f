// Base58 strings (src/base58.cpp).

module Digits {

  function Pow(b: nat, n: nat): nat {
    if n == 0 then 1 else b * Pow(b, n - 1)
  }

  lemma {:induction false} PowPositive(b: nat, n: nat)
    requires b >= 1
    ensures Pow(b, n) >= 1
  {
    if n > 0 {
      PowPositive(b, n - 1);
      MulMono(1, b, Pow(b, n - 1));
    }
  }

  lemma {:induction false} MulMono(a: int, b: int, c: int)
    requires a <= b && c >= 0
    ensures a * c <= b * c
  {
    assert b * c == a * c + (b - a) * c;
  }

  lemma {:induction false} PowAdd(b: nat, m: nat, n: nat)
    ensures Pow(b, m + n) == Pow(b, m) * Pow(b, n)
  {
    if m > 0 {
      PowAdd(b, m - 1, n);
      MulAssociates(b, Pow(b, m - 1), Pow(b, n));
    }
  }

  lemma {:induction false} MulAssociates(a: int, b: int, c: int)
    ensures a * (b * c) == (a * b) * c
  {
  }

  lemma {:induction false} PowMul(b: nat, m: nat, n: nat)
    ensures Pow(b, m * n) == Pow(Pow(b, m), n)
  {
    if n > 0 {
      PowMul(b, m, n - 1);
      assert m * n == m + m * (n - 1);
      PowAdd(b, m, m * (n - 1));
    } else {
      assert m * n == 0;
    }
  }

  lemma {:induction false} PowBase(a: nat, b: nat, n: nat)
    requires a <= b
    ensures Pow(a, n) <= Pow(b, n)
  {
    if n > 0 {
      PowBase(a, b, n - 1);
      MulMono(a, b, Pow(a, n - 1));
      assert b * Pow(a, n - 1) <= b * Pow(b, n - 1) by { MulMono(Pow(a, n - 1), Pow(b, n - 1), b); }
    }
  }

  lemma {:induction false} PowMono(b: nat, m: nat, n: nat)
    requires b >= 1 && m <= n
    ensures Pow(b, m) <= Pow(b, n)
  {
    PowAdd(b, m, n - m);
    PowPositive(b, n - m);
    MulMono(1, Pow(b, n - m), Pow(b, m));
  }

  lemma {:induction false} PowStrict(b: nat, m: nat, n: nat)
    requires b >= 2 && m < n
    ensures Pow(b, m) < Pow(b, n)
  {
    PowMono(b, m + 1, n);
    PowPositive(b, m);
    MulMono(2, b, Pow(b, m));
  }

  // ---- the two buffer sizes ----

  lemma {:induction false} MulBoth(x: int, y: int, u: int, v: int)
    requires x >= y >= 0 && u >= v >= 0
    ensures x * u >= y * v
  {
    MulMono(y, x, u);
    MulMono(v, u, y);
  }

  // A bound on a power and on what is left over bound the power of the sum.
  lemma {:induction false} PowBound(a: nat, b: nat, m: nat, n: nat, k: nat, r: nat, s: nat)
    requires Pow(a, m) >= Pow(b, n) && Pow(a, r) >= Pow(b, s) && b >= 1
    ensures Pow(a, m * k + r) >= Pow(b, n * k + s)
  {
    hide Pow;
    PowMul(a, m, k);
    PowMul(b, n, k);
    PowBase(Pow(b, n), Pow(a, m), k);
    PowAdd(a, m * k, r);
    PowAdd(b, n * k, s);
    MulBoth(Pow(a, m * k), Pow(b, n * k), Pow(a, r), Pow(b, s));
  }

  lemma {:induction false} ByteIsEightBits(n: nat)
    ensures Pow(256, n) == Pow(2, 8 * n)
  {
    assert Pow(2, 8) == 256;
    PowMul(2, 8, n);
  }

  // 58^69 is at least 256^50.
  lemma {:induction false} EncodeRatio()
    ensures Pow(58, 69) >= Pow(256, 50)
  {
    hide Pow;
    SmallPowers();
    PowBound(58, 2, 7, 41, 9, 6, 35);
    ByteIsEightBits(50);
    PowMono(2, 400, 404);
  }

  // 58^1000 is at most 256^733.
  lemma {:induction false} DecodeRatio()
    ensures Pow(256, 733) >= Pow(58, 1000)
  {
    hide Pow;
    LargerPowers();
    PowBound(2, 58, 129, 22, 45, 59, 10);
    ByteIsEightBits(733);
  }

  lemma {:induction false} SmallPowers()
    ensures Pow(58, 6) == 38068692544 && Pow(58, 7) == 2207984167552
    ensures Pow(2, 35) == 34359738368 && Pow(2, 41) == 2199023255552
  {
    assert Pow(58, 3) == 195112;
    PowAdd(58, 3, 3);
    PowAdd(58, 6, 1);
    assert Pow(58, 1) == 58;
    assert Pow(2, 6) == 64 && Pow(2, 5) == 32;
    PowAdd(2, 5, 6);
    PowAdd(2, 6, 6);
    PowAdd(2, 11, 12);
    PowAdd(2, 12, 12);
    PowAdd(2, 12, 23);
    PowAdd(2, 6, 35);
  }

  lemma {:induction false} LargerPowers()
    ensures Pow(58, 10) <= Pow(2, 59) && Pow(58, 22) <= Pow(2, 129)
  {
    PowersOf58();
    PowersOf2();
    hide Pow;
    PowAdd(58, 11, 11);
    PowAdd(2, 65, 64);
  }

  lemma {:induction false} PowersOf58()
    ensures Pow(58, 10) == 430804206899405824 && Pow(58, 11) == 24986644000165537792
  {
    SmallPowers();
    assert Pow(58, 3) == 195112 && Pow(58, 1) == 58;
    hide Pow;
    PowAdd(58, 7, 3);
    PowAdd(58, 10, 1);
  }

  lemma {:induction false} PowersOf2()
    ensures Pow(2, 59) == 576460752303423488 && Pow(2, 64) == 18446744073709551616 && Pow(2, 65) == 36893488147419103232
  {
    SmallPowers();
    assert Pow(2, 6) == 64 && Pow(2, 5) == 32;
    hide Pow;
    PowAdd(2, 6, 6);
    PowAdd(2, 12, 6);
    PowAdd(2, 41, 18);
    PowAdd(2, 59, 6);
    PowAdd(2, 59, 5);
  }

  // If b^p is at least a^q then n digits of base a fit into p*n/q + 1 of base b.
  lemma {:induction false} SizeSuffices(a: nat, b: nat, p: nat, q: nat, n: nat)
    requires a >= 2 && b >= 2 && q >= 1 && Pow(b, p) >= Pow(a, q)
    ensures Pow(a, n) < Pow(b, p * n / q + 1)
  {
    hide Pow;
    var k := p * n / q + 1;
    assert p * n < q * k by { QuotientNext(p * n, q); }
    PowMul(a, n, q);
    PowMul(a, q, n);
    assert n * q == q * n;
    PowBase(Pow(a, q), Pow(b, p), n);
    PowMul(b, p, n);
    PowStrict(b, p * n, q * k);
    PowMul(b, k, q);
    assert q * k == k * q;
    if Pow(a, n) >= Pow(b, k) {
      PowBase(Pow(b, k), Pow(a, n), q);
    }
  }

  lemma {:induction false} QuotientNext(x: int, q: int)
    requires q >= 1
    ensures x < q * (x / q + 1)
  {
    assert x == q * (x / q) + x % q;
    assert q * (x / q + 1) == q * (x / q) + q;
  }

  // ---- numbers in a base ----

  ghost predicate Below(s: seq<nat>, b: nat) {
    forall i :: 0 <= i < |s| ==> s[i] < b
  }

  // The value with the most significant digit first, and with it last.
  ghost function Val(s: seq<nat>, b: nat): nat {
    if s == [] then 0 else Val(s[..|s| - 1], b) * b + s[|s| - 1]
  }

  ghost function LowVal(d: seq<nat>, b: nat): nat {
    if d == [] then 0 else LowVal(d[..|d| - 1], b) + d[|d| - 1] * Pow(b, |d| - 1)
  }

  ghost predicate Canonical(s: seq<nat>, b: nat) {
    Below(s, b) && (s != [] ==> s[0] != 0)
  }

  lemma {:induction false} ValBound(s: seq<nat>, b: nat)
    requires b >= 2 && Below(s, b)
    ensures Val(s, b) < Pow(b, |s|)
  {
    if s != [] {
      var n := |s| - 1;
      ValBound(s[..n], b);
      MulMono(Val(s[..n], b) + 1, Pow(b, n), b);
      assert (Val(s[..n], b) + 1) * b == Val(s[..n], b) * b + b;
    }
  }

  lemma {:induction false} ValFront(x: nat, s: seq<nat>, b: nat)
    ensures Val([x] + s, b) == x * Pow(b, |s|) + Val(s, b)
  {
    if s == [] {
      assert ([x] + s)[..0] == [];
    } else {
      var n := |s| - 1;
      ValFront(x, s[..n], b);
      assert ([x] + s)[..n + 1] == [x] + s[..n];
      Expand(x, Pow(b, n), Val(s[..n], b), b);
    }
  }

  lemma {:induction false} Expand(x: int, p: int, v: int, b: int)
    ensures (x * p + v) * b == x * (b * p) + v * b
  {
    assert (x * p + v) * b == x * p * b + v * b;
    assert x * p * b == x * (b * p);
  }

  lemma {:induction false} CanonicalBound(s: seq<nat>, b: nat)
    requires b >= 2 && Canonical(s, b) && s != []
    ensures Pow(b, |s| - 1) <= Val(s, b) < Pow(b, |s|)
  {
    ValBound(s, b);
    var t := s[1..];
    assert s == [s[0]] + t;
    ValFront(s[0], t, b);
    MulMono(1, s[0], Pow(b, |t|));
  }

  lemma {:induction false} SameLength(s: seq<nat>, t: seq<nat>, b: nat)
    requires b >= 2 && Canonical(s, b) && Canonical(t, b) && Val(s, b) == Val(t, b)
    ensures |s| == |t|
  {
    if |s| < |t| {
      Shorter(s, t, b);
    } else if |t| < |s| {
      Shorter(t, s, b);
    }
  }

  lemma {:induction false} Shorter(s: seq<nat>, t: seq<nat>, b: nat)
    requires b >= 2 && Canonical(s, b) && Canonical(t, b) && |s| < |t|
    ensures Val(s, b) < Val(t, b)
  {
    CanonicalBound(t, b);
    ValBound(s, b);
    PowMono(b, |s|, |t| - 1);
  }

  // A number has one expansion of a length.
  lemma {:induction false} SameDigits(s: seq<nat>, t: seq<nat>, b: nat)
    requires b >= 2 && Below(s, b) && Below(t, b) && |s| == |t| && Val(s, b) == Val(t, b)
    ensures s == t
  {
    if s != [] {
      var n := |s| - 1;
      LastDigit(Val(s[..n], b), s[n], Val(t[..n], b), t[n], b);
      SameDigits(s[..n], t[..n], b);
      assert s == s[..n] + [s[n]] && t == t[..n] + [t[n]];
    }
  }

  lemma {:induction false} LastDigit(p: int, x: int, q: int, y: int, b: int)
    requires 0 <= x < b && 0 <= y < b && p * b + x == q * b + y
    ensures p == q && x == y
  {
    assert (p + 1) * b == p * b + b && (q + 1) * b == q * b + b;
    if p < q {
      MulMono(p + 1, q, b);
    } else if q < p {
      MulMono(q + 1, p, b);
    }
  }

  lemma {:induction false} LowValPrefix(d: seq<nat>, i: nat, b: nat)
    requires i < |d|
    ensures LowVal(d[..i + 1], b) == LowVal(d[..i], b) + d[i] * Pow(b, i)
  {
    assert d[..i + 1][..i] == d[..i];
  }

  // Zeros at the top do not count.
  lemma {:induction false} LowValTop(d: seq<nat>, i: nat, b: nat)
    requires i <= |d| && forall j :: i <= j < |d| ==> d[j] == 0
    ensures LowVal(d, b) == LowVal(d[..i], b)
  {
    if i < |d| {
      var n := |d| - 1;
      LowValTop(d[..n], i, b);
      assert d[..n][..i] == d[..i];
      assert 0 * Pow(b, n) == 0;
    } else {
      assert d[..i] == d;
    }
  }

  lemma {:induction false} LowValBound(d: seq<nat>, b: nat)
    requires b >= 2 && Below(d, b)
    ensures LowVal(d, b) < Pow(b, |d|)
  {
    if d != [] {
      var n := |d| - 1;
      LowValBound(d[..n], b);
      MulMono(d[n] + 1, b, Pow(b, n));
      assert (d[n] + 1) * Pow(b, n) == d[n] * Pow(b, n) + Pow(b, n);
    }
  }

  // ---- the carry loop ----

  lemma {:induction false} CarryTurn(p: int, w: int, c: int, x: int, m: int, b: int)
    requires b > 0
    ensures p + (c + m * x) % b * w + (c + m * x) / b * (b * w) == p + c * w + m * (x * w)
  {
    var n := c + m * x;
    var q, r := n / b, n % b;
    assert n == q * b + r;
    assert q * (b * w) == q * b * w;
    assert (q * b + r) * w == q * b * w + r * w;
    assert (c + m * x) * w == c * w + m * x * w;
    assert m * (x * w) == m * x * w;
  }

  function Times(m: nat, x: nat): nat {
    MulMono(0, x, m);
    m * x
  }

  function Digit(n: nat, b: nat): (r: nat)
    requires b >= 2
    ensures r < b
  {
    n % b
  }

  function Carry(n: nat, b: nat): nat
    requires b >= 2
  {
    n / b
  }

  ghost predicate Buffer(d: seq<nat>, length: nat, b: nat) {
    length <= |d| && Below(d, b) && forall j :: length <= j < |d| ==> d[j] == 0
  }

  // The inner loop of both directions, on the buffer as the reverse iterator sees it:
  // multiply by m and add. The carry is gone at the end, because the result fits.
  method MulAdd(d: array<nat>, length: nat, m: nat, add: nat, b: nat) returns (newLength: nat)
    requires b >= 2 && Buffer(d[..], length, b) && m * LowVal(d[..], b) + add < Pow(b, d.Length)
    modifies d
    ensures Buffer(d[..], newLength, b) && LowVal(d[..], b) == m * old(LowVal(d[..], b)) + add
  {
    hide LowVal, Pow, Times, Digit, Carry;
    ghost var x := d[..];
    var carry, i := add, 0;
    assert LowVal(x[..0], b) == 0 && Pow(b, 0) == 1 by { NoDigits(b, x); }
    assert m * 0 == 0;
    while (carry != 0 || i < length) && i < d.Length
      invariant 0 <= i <= d.Length && carry >= 0
      invariant forall j :: i <= j < d.Length ==> d[j] == x[j]
      invariant forall j :: 0 <= j < i ==> d[j] < b
      invariant LowVal(d[..i], b) + carry * Pow(b, i) == m * LowVal(x[..i], b) + add
      decreases d.Length - i
    {
      ghost var c, before := carry, d[..];
      carry := carry + Times(m, d[i]);
      d[i] := Digit(carry, b);
      assert d[..i] == before[..i];
      CarryStep(d[..], x, i, c, m, b, add);
      assert d[..][..i + 1] == d[..i + 1] && d[..][..i] == d[..i];
      carry := Carry(carry, b);
      i := i + 1;
    }
    CarryDone(d[..], x, i, length, carry, m, b, add);
    assert carry == 0;
    newLength := i;
  }

  lemma {:induction false} NoDigits(b: nat, d: seq<nat>)
    ensures LowVal(d[..0], b) == 0 && Pow(b, 0) == 1
  {
  }

  lemma {:induction false} CarryStep(d: seq<nat>, x: seq<nat>, i: nat, c: nat, m: nat, b: nat, add: nat)
    requires b >= 2 && i < |d| == |x| && d[i] == Digit(c + Times(m, x[i]), b)
    requires LowVal(d[..i], b) + c * Pow(b, i) == m * LowVal(x[..i], b) + add
    ensures LowVal(d[..i + 1], b) + Carry(c + Times(m, x[i]), b) * Pow(b, i + 1) == m * LowVal(x[..i + 1], b) + add
  {
    LowValPrefix(d, i, b);
    LowValPrefix(x, i, b);
    assert Pow(b, i + 1) == b * Pow(b, i);
    hide LowVal, Pow;
    CarryTurn(LowVal(d[..i], b), Pow(b, i), c, x[i], m, b);
    Distribute(m, LowVal(x[..i], b), x[i] * Pow(b, i));
  }

  lemma {:induction false} Distribute(m: int, a: int, b: int)
    ensures m * (a + b) == m * a + m * b
  {
  }

  lemma {:induction false} CarryDone(d: seq<nat>, x: seq<nat>, i: nat, length: nat, carry: nat, m: nat, b: nat, add: nat)
    requires b >= 2 && i <= |d| == |x| && Buffer(x, length, b) && (forall j :: i <= j < |d| ==> d[j] == x[j])
    requires forall j :: 0 <= j < i ==> d[j] < b
    requires LowVal(d[..i], b) + carry * Pow(b, i) == m * LowVal(x[..i], b) + add
    requires (carry == 0 && i >= length) || i == |d|
    requires m * LowVal(x, b) + add < Pow(b, |d|)
    ensures carry == 0 && Buffer(d, i, b) && LowVal(d, b) == m * LowVal(x, b) + add
  {
    hide LowVal, Pow;
    if i == |d| {
      assert d[..i] == d && x[..i] == x;
      if carry >= 1 {
        MulMono(1, carry, Pow(b, i));
      }
    } else {
      LowValTop(d, i, b);
      LowValTop(x, i, b);
    }
    assert 0 * Pow(b, i) == 0;
  }

  // The digits from the first that is not zero, most significant first.
  method Strip(d: array<nat>, length: nat, ghost b: nat) returns (s: seq<nat>)
    requires b >= 2 && Buffer(d[..], length, b)
    ensures Canonical(s, b) && Val(s, b) == LowVal(d[..], b)
  {
    hide LowVal, Val, Pow;
    var n := length;
    while n > 0 && d[n - 1] == 0
      invariant 0 <= n <= length && forall j :: n <= j < d.Length ==> d[j] == 0
    {
      n := n - 1;
    }
    LowValTop(d[..], n, b);
    s := [];
    var i := n;
    while i > 0
      invariant 0 <= i <= n && |s| == n - i && forall j :: 0 <= j < |s| ==> s[j] == d[n - 1 - j]
    {
      i := i - 1;
      s := s + [d[i]];
    }
    assert forall j :: 0 <= j < n ==> s[j] == d[..n][n - 1 - j];
    ReversedVal(d[..n], s, b);
    assert d[..][..n] == d[..n];
  }

  lemma {:induction false} ReversedVal(d: seq<nat>, s: seq<nat>, b: nat)
    requires |d| == |s| && forall j :: 0 <= j < |s| ==> s[j] == d[|d| - 1 - j]
    ensures Val(s, b) == LowVal(d, b)
  {
    if d != [] {
      var n := |d| - 1;
      var t := s[1..];
      assert s == [s[0]] + t;
      ValFront(s[0], t, b);
      ReversedVal(d[..n], t, b);
    }
  }
}

module Base58 {
  import opened Basics
  import opened Digits

  // The alphabet, by runs of characters: 1-9, A-H, J-N, P-Z, a-k and m-z.
  function CharOf(k: nat): char
    requires k < 58
  {
    if k < 9 then ('1' as int + k) as char
    else if k < 17 then ('A' as int + k - 9) as char
    else if k < 22 then ('J' as int + k - 17) as char
    else if k < 33 then ('P' as int + k - 22) as char
    else if k < 44 then ('a' as int + k - 33) as char
    else ('m' as int + k - 44) as char
  }

  // strchr in the alphabet.
  function IndexOf(c: char): (k: Option<nat>)
    ensures k.Some? ==> k.value < 58 && CharOf(k.value) == c
    ensures k.None? ==> forall j: nat :: j < 58 ==> CharOf(j) != c
  {
    if '1' <= c <= '9' then Some(c as int - '1' as int)
    else if 'A' <= c <= 'H' then Some(c as int - 'A' as int + 9)
    else if 'J' <= c <= 'N' then Some(c as int - 'J' as int + 17)
    else if 'P' <= c <= 'Z' then Some(c as int - 'P' as int + 22)
    else if 'a' <= c <= 'k' then Some(c as int - 'a' as int + 33)
    else if 'm' <= c <= 'z' then Some(c as int - 'm' as int + 44)
    else None
  }

  lemma {:induction false} CharsDiffer(j: nat, k: nat)
    requires j < k < 58
    ensures CharOf(j) < CharOf(k)
  {
  }

  predicate IsSpace(c: char) {
    c == ' ' || 9 <= c as int <= 13
  }

  // The alphabet is the digits and letters but 0, O, I and l, in the order of their codes.
  lemma {:induction false} AlphabetOrder(c: char, d: char)
    ensures IndexOf(c).Some? <==>
      ('0' <= c <= '9' || 'A' <= c <= 'Z' || 'a' <= c <= 'z') && c != '0' && c != 'O' && c != 'I' && c != 'l'
    ensures IndexOf(c).Some? && IndexOf(d).Some? ==> (c < d <==> IndexOf(c).value < IndexOf(d).value)
  {
    hide CharOf;
  }

  // s spells the digits d in the alphabet.
  ghost predicate Spells(s: string, d: seq<nat>) {
    |s| == |d| && forall i :: 0 <= i < |s| ==> d[i] < 58 && s[i] == CharOf(d[i])
  }

  lemma {:induction false} SpellsOnce(s: string, d: seq<nat>, e: seq<nat>)
    requires Spells(s, d) && Spells(s, e)
    ensures d == e
  {
    hide CharOf;
    forall i | 0 <= i < |d|
      ensures d[i] == e[i]
    {
      if d[i] < e[i] {
        CharsDiffer(d[i], e[i]);
      } else if e[i] < d[i] {
        CharsDiffer(e[i], d[i]);
      }
    }
  }

  function Repeat<T>(x: T, n: nat): (s: seq<T>)
    ensures |s| == n
  {
    seq(n, i => x)
  }

  // str is the Base58 form of the bytes v: a 1 for every leading zero byte, and the number
  // that is left in base 58 without leading zeros.
  ghost predicate Encodes(v: seq<nat>, str: string) {
    exists z: nat, rest, d :: EncodesWith(v, str, z, rest, d)
  }

  ghost predicate EncodesWith(v: seq<nat>, str: string, z: nat, rest: seq<nat>, d: seq<nat>) {
    && v == Repeat(0, z) + rest && Canonical(rest, 256)
    && Canonical(d, 58) && Val(d, 58) == Val(rest, 256)
    && |str| == z + |d| && (forall i :: 0 <= i < z ==> str[i] == '1') && Spells(str[z..], d)
  }

  // Neither side has a second form.
  lemma {:induction false} EncodesOnce(v: seq<nat>, str: string, v': seq<nat>, str': string)
    requires Encodes(v, str) && Encodes(v', str')
    ensures v == v' ==> str == str'
    ensures str == str' ==> v == v'
  {
    var z: nat, rest, d :| EncodesWith(v, str, z, rest, d);
    var z': nat, rest', d' :| EncodesWith(v', str', z', rest', d');
    hide Val;
    if v == v' {
      SameZeros(v, z, rest, z', rest');
      SameLength(d, d', 58);
      SameDigits(d, d', 58);
      forall i | 0 <= i < |str|
        ensures str[i] == str'[i]
      {
        assert i >= z ==> str[i] == str[z..][i - z] && str'[i] == str'[z..][i - z];
      }
    }
    if str == str' {
      SameOnes(str, z, d, z', d');
      SpellsOnce(str[z..], d, d');
      SameLength(rest, rest', 256);
      SameDigits(rest, rest', 256);
    }
  }

  lemma {:induction false} SameZeros(v: seq<nat>, z: nat, rest: seq<nat>, z': nat, rest': seq<nat>)
    requires v == Repeat(0, z) + rest == Repeat(0, z') + rest' && Canonical(rest, 256) && Canonical(rest', 256)
    ensures z == z' && rest == rest'
  {
    if z < z' {
      ZerosNotMore(v, z, rest, z', rest');
    } else if z' < z {
      ZerosNotMore(v, z', rest', z, rest);
    }
    assert rest == v[z..] && rest' == v[z'..];
  }

  lemma {:induction false} ZerosNotMore(v: seq<nat>, z: nat, rest: seq<nat>, z': nat, rest': seq<nat>)
    requires v == Repeat(0, z) + rest == Repeat(0, z') + rest' && Canonical(rest, 256)
    ensures z' <= z
  {
    if rest != [] {
      assert v[z] == rest[0];
    }
  }

  lemma {:induction false} SameOnes(str: string, z: nat, d: seq<nat>, z': nat, d': seq<nat>)
    requires |str| == z + |d| == z' + |d'| && Canonical(d, 58) && Canonical(d', 58)
    requires (forall i :: 0 <= i < z ==> str[i] == '1') && (forall i :: 0 <= i < z' ==> str[i] == '1')
    requires Spells(str[z..], d) && Spells(str[z'..], d')
    ensures z == z'
  {
    hide CharOf;
    if z < z' {
      assert str[z..][0] == str[z] == '1';
      NotOne(d[0]);
    } else if z' < z {
      assert str[z'..][0] == str[z'] == '1';
      NotOne(d'[0]);
    }
  }

  lemma {:induction false} NotOne(k: nat)
    requires 0 < k < 58
    ensures CharOf(k) != '1'
  {
  }

  // ---- encoding ----

  method EncodeBase58(v: seq<nat>) returns (str: string)
    requires Below(v, 256)
    ensures Encodes(v, str)
  {
    var zeroes := 0;
    while zeroes < |v| && v[zeroes] == 0
      invariant 0 <= zeroes <= |v| && forall i :: 0 <= i < zeroes ==> v[i] == 0
    {
      zeroes := zeroes + 1;
    }
    var rest := v[zeroes..];
    var d := ToBase58(rest);
    var tail := Translate(d);
    str := Repeat('1', zeroes) + tail;
    assert str[zeroes..] == tail;
    assert v == Repeat(0, zeroes) + rest;
    assert EncodesWith(v, str, zeroes, rest, d);
  }

  // The size of the buffer is enough at every length.
  method ToBase58(rest: seq<nat>) returns (d: seq<nat>)
    requires Below(rest, 256)
    ensures Canonical(d, 58) && Val(d, 58) == Val(rest, 256)
  {
    hide Val, LowVal, Pow;
    var size := |rest| * 138 / 100 + 1;
    assert Pow(256, |rest|) < Pow(58, size) by { EncodeRoom(|rest|); }
    var b58 := new nat[size](i => 0);
    var length, i := 0, 0;
    StartBuffer(b58[..], 58, rest, 256);
    while i < |rest|
      invariant 0 <= i <= |rest| && b58.Length == size && Buffer(b58[..], length, 58)
      invariant LowVal(b58[..], 58) == Val(rest[..i], 256)
    {
      ValNext(rest, i, 256);
      length := MulAdd(b58, length, 256, rest[i], 58);
      i := i + 1;
    }
    assert rest[..i] == rest;
    d := Strip(b58, length, 58);
  }

  lemma {:induction false} EncodeRoom(n: nat)
    ensures Pow(256, n) < Pow(58, n * 138 / 100 + 1)
  {
    hide Pow;
    EncodeRatio();
    SizeSuffices(256, 58, 69, 50, n);
    assert n * 138 / 100 == 69 * n / 50;
  }

  lemma {:induction false} DecodeRoom(n: nat)
    ensures Pow(58, n) < Pow(256, n * 733 / 1000 + 1)
  {
    hide Pow;
    DecodeRatio();
    SizeSuffices(58, 256, 733, 1000, n);
  }

  lemma {:induction false} StartBuffer(d: seq<nat>, b: nat, s: seq<nat>, c: nat)
    requires b >= 1 && forall i :: 0 <= i < |d| ==> d[i] == 0
    ensures Buffer(d, 0, b) && LowVal(d, b) == 0 == Val(s[..0], c)
  {
    LowValTop(d, 0, b);
  }

  // One more digit, and all of them together are within the bound.
  lemma {:induction false} ValNext(s: seq<nat>, i: nat, b: nat)
    requires i < |s| && b >= 2 && Below(s, b)
    ensures Val(s[..i + 1], b) == b * Val(s[..i], b) + s[i] && Val(s[..i + 1], b) < Pow(b, |s|)
  {
    assert s[..i + 1][..i] == s[..i];
    ValBound(s[..i + 1], b);
    PowMono(b, i + 1, |s|);
  }

  method Translate(d: seq<nat>) returns (str: string)
    requires Below(d, 58)
    ensures Spells(str, d)
  {
    str := [];
    while |str| < |d|
      invariant |str| <= |d| && forall i :: 0 <= i < |str| ==> str[i] == CharOf(d[i])
    {
      str := str + [CharOf(d[|str|])];
    }
  }

  // ---- decoding ----

  // Between lo and hi is the string without the spaces before and after it.
  ghost predicate Trims(str: string, lo: nat, hi: nat) {
    && lo <= hi <= |str|
    && (forall i :: 0 <= i < lo || hi <= i < |str| ==> IsSpace(str[i]))
    && (lo < hi ==> !IsSpace(str[lo]) && !IsSpace(str[hi - 1]))
  }

  ghost function Trimmed(str: string): string {
    if str == [] then str
    else if IsSpace(str[0]) then Trimmed(str[1..])
    else if IsSpace(str[|str| - 1]) then Trimmed(str[..|str| - 1])
    else str
  }

  lemma {:induction false} TrimsTrimmed(str: string, lo: nat, hi: nat)
    requires Trims(str, lo, hi)
    ensures str[lo..hi] == Trimmed(str)
    decreases |str|
  {
    if str != [] {
      var n := |str| - 1;
      if IsSpace(str[0]) {
        if lo > 0 {
          TrimsTrimmed(str[1..], lo - 1, hi - 1);
          assert str[1..][lo - 1..hi - 1] == str[lo..hi];
        } else {
          TrimsTrimmed(str[1..], 0, 0);
          assert lo == hi;
        }
      } else if IsSpace(str[n]) {
        assert lo == 0 && hi <= n;
        TrimsTrimmed(str[..n], lo, hi);
        assert str[..n][lo..hi] == str[lo..hi];
      } else {
        assert lo == 0 && hi == |str|;
      }
    }
  }

  ghost predicate InAlphabet(s: string) {
    forall i :: 0 <= i < |s| ==> IndexOf(s[i]).Some?
  }

  // The digits of characters of the alphabet.
  function Indexes(s: string): (d: seq<nat>)
    ensures |d| == |s| && Below(d, 58)
  {
    seq(|s|, i requires 0 <= i < |s| => if IndexOf(s[i]).Some? then IndexOf(s[i]).value else 0)
  }

  method SkipSpaces(str: string, from: nat) returns (p: nat)
    requires from <= |str|
    ensures from <= p <= |str| && (forall i :: from <= i < p ==> IsSpace(str[i])) && (p < |str| ==> !IsSpace(str[p]))
  {
    p := from;
    while p < |str| && IsSpace(str[p])
      invariant from <= p <= |str| && forall i :: from <= i < p ==> IsSpace(str[i])
    {
      p := p + 1;
    }
  }

  lemma {:induction false} TrimEnd(str: string, lo: nat) returns (hi: nat)
    requires lo <= |str| && (forall i :: 0 <= i < lo ==> IsSpace(str[i])) && (lo < |str| ==> !IsSpace(str[lo]))
    ensures Trims(str, lo, hi)
  {
    hi := |str|;
    while hi > lo && IsSpace(str[hi - 1])
      invariant lo <= hi <= |str| && forall i :: hi <= i < |str| ==> IsSpace(str[i])
    {
      hi := hi - 1;
    }
  }

  lemma {:induction false} SpaceIsNoDigit(c: char)
    requires IsSpace(c)
    ensures IndexOf(c).None?
  {
  }

  // Decoding succeeds exactly if the trimmed string is in the alphabet, and then the
  // trimmed string is the form of the bytes.
  method DecodeBase58(str: string) returns (v: Option<seq<nat>>)
    ensures v.Some? <==> InAlphabet(Trimmed(str))
    ensures v.Some? ==> Encodes(v.value, Trimmed(str))
  {
    hide IndexOf, CharOf, Encodes, InAlphabet, Trimmed;
    var p := SkipSpaces(str, 0);
    ghost var lo := p;
    ghost var hi := TrimEnd(str, p);
    TrimsTrimmed(str, lo, hi);
    var zeroes := 0;
    while p < |str| && str[p] == '1'
      invariant lo <= p <= |str| && zeroes == p - lo && forall i :: lo <= i < p ==> str[i] == '1'
    {
      p, zeroes := p + 1, zeroes + 1;
    }
    var ok, bytes, e := DecodeDigits(str, p);
    if !ok {
      BadCharacter(str, lo, hi, e);
      return None;
    }
    var q := SkipSpaces(str, e);
    if q < |str| {
      BadSpace(str, lo, hi, e, q);
      return None;
    }
    GoodString(str, lo, hi, p, e, bytes);
    v := Some(Repeat(0, zeroes) + bytes);
  }

  // Characters up to a space or the end, or up to one that is not in the alphabet. The
  // size of the buffer is enough at every length.
  method DecodeDigits(str: string, start: nat) returns (ok: bool, bytes: seq<nat>, e: nat)
    requires start <= |str|
    ensures start <= e <= |str| && (forall i :: start <= i < e ==> !IsSpace(str[i]) && IndexOf(str[i]).Some?)
    ensures !ok ==> e < |str| && !IsSpace(str[e]) && IndexOf(str[e]).None?
    ensures ok ==> (e < |str| ==> IsSpace(str[e])) && Canonical(bytes, 256) && Val(bytes, 256) == Val(Indexes(str[start..e]), 58)
  {
    hide IndexOf, CharOf, Val, LowVal, Pow;
    var size := (|str| - start) * 733 / 1000 + 1;
    assert Pow(58, |str| - start) < Pow(256, size) by { DecodeRoom(|str| - start); }
    var b256 := new nat[size](i => 0);
    var length := 0;
    e, ok, bytes := start, false, [];
    StartBuffer(b256[..], 256, Indexes(str[start..]), 58);
    assert Indexes(str[start..])[..0] == Indexes(str[start..e]);
    while e < |str| && !IsSpace(str[e])
      invariant start <= e <= |str| && forall i :: start <= i < e ==> !IsSpace(str[i]) && IndexOf(str[i]).Some?
      invariant b256.Length == size && Buffer(b256[..], length, 256)
      invariant LowVal(b256[..], 256) == Val(Indexes(str[start..e]), 58)
    {
      if IndexOf(str[e]).None? {
        return;
      }
      NextDigit(str, start, e);
      length := MulAdd(b256, length, 58, IndexOf(str[e]).value, 256);
      e := e + 1;
    }
    ok := true;
    bytes := Strip(b256, length, 256);
  }

  lemma {:induction false} NextDigit(str: string, start: nat, e: nat)
    requires start <= e < |str| && IndexOf(str[e]).Some?
    ensures Val(Indexes(str[start..e + 1]), 58) == 58 * Val(Indexes(str[start..e]), 58) + IndexOf(str[e]).value
    ensures Val(Indexes(str[start..e + 1]), 58) < Pow(58, |str| - start)
  {
    hide IndexOf, Pow, Val;
    var d := Indexes(str[start..]);
    ValNext(d, e - start, 58);
    assert d[..e - start] == Indexes(str[start..e]) && d[..e - start + 1] == Indexes(str[start..e + 1]);
  }

  lemma {:induction false} BadCharacter(str: string, lo: nat, hi: nat, e: nat)
    requires Trims(str, lo, hi) && lo <= e < |str| && !IsSpace(str[e]) && IndexOf(str[e]).None?
    ensures !InAlphabet(str[lo..hi])
  {
    hide IndexOf;
    assert e < hi && str[lo..hi][e - lo] == str[e];
  }

  lemma {:induction false} BadSpace(str: string, lo: nat, hi: nat, e: nat, q: nat)
    requires Trims(str, lo, hi) && lo <= e < q < |str| && IsSpace(str[e]) && !IsSpace(str[q])
    ensures !InAlphabet(str[lo..hi])
  {
    hide IndexOf;
    assert q < hi && str[lo..hi][e - lo] == str[e];
    SpaceIsNoDigit(str[e]);
  }

  lemma {:induction false} GoodString(str: string, lo: nat, hi: nat, p: nat, e: nat, bytes: seq<nat>)
    requires Trims(str, lo, hi) && lo <= p <= e <= |str| && (forall i :: lo <= i < p ==> str[i] == '1')
    requires forall i :: p <= i < e ==> !IsSpace(str[i]) && IndexOf(str[i]).Some?
    requires forall i :: e <= i < |str| ==> IsSpace(str[i])
    requires p < |str| ==> str[p] != '1'
    requires Canonical(bytes, 256) && Val(bytes, 256) == Val(Indexes(str[p..e]), 58)
    ensures InAlphabet(str[lo..hi]) && Encodes(Repeat(0, p - lo) + bytes, str[lo..hi])
  {
    hide CharOf, Val;
    assert hi == e by {
      assert lo < e ==> !IsSpace(str[e - 1]);
    }
    var body, d, z := str[lo..hi], Indexes(str[p..e]), p - lo;
    hide IndexOf;
    assert forall i :: 0 <= i < |body| ==> body[i] == str[lo + i];
    assert IndexOf('1').Some? by { OneIsDigit('1'); }
    assert body[z..] == str[p..e];
    SpellsIndexes(str[p..e]);
    if d != [] {
      OneIsDigit(str[p]);
      assert str[p..e][0] == str[p];
    }
    assert EncodesWith(Repeat(0, z) + bytes, body, z, bytes, d);
  }

  lemma {:induction false} OneIsDigit(c: char)
    ensures IndexOf(c) == Some(0) <==> c == '1'
  {
  }

  lemma {:induction false} SpellsIndexes(s: string)
    requires InAlphabet(s)
    ensures Spells(s, Indexes(s))
  {
    hide IndexOf, CharOf;
  }

  // ---- round trips ----

  method EncodeAndDecode(v: seq<nat>) returns (r: Option<seq<nat>>)
    requires Below(v, 256)
    ensures r == Some(v)
  {
    hide Encodes;
    var str := EncodeBase58(v);
    FormIsTrimmed(v, str);
    r := DecodeBase58(str);
    EncodesOnce(v, str, r.value, str);
  }

  method DecodeAndEncode(str: string) returns (r: Option<string>)
    ensures r == if InAlphabet(Trimmed(str)) then Some(Trimmed(str)) else None
  {
    hide Encodes, Trimmed;
    var v := DecodeBase58(str);
    if v.None? {
      return None;
    }
    FormOfBytes(v.value, Trimmed(str));
    var again := EncodeBase58(v.value);
    EncodesOnce(v.value, again, v.value, Trimmed(str));
    r := Some(again);
  }

  lemma {:induction false} FormOfBytes(v: seq<nat>, str: string)
    requires Encodes(v, str)
    ensures Below(v, 256)
  {
  }

  lemma {:induction false} FormIsTrimmed(v: seq<nat>, str: string)
    requires Encodes(v, str)
    ensures InAlphabet(str) && Trimmed(str) == str
  {
    hide Val;
    var z: nat, rest, d :| EncodesWith(v, str, z, rest, d);
    forall i | 0 <= i < |str|
      ensures IndexOf(str[i]).Some? && !IsSpace(str[i])
    {
      if i >= z {
        assert str[i] == str[z..][i - z] == CharOf(d[i - z]);
      }
    }
  }
}
