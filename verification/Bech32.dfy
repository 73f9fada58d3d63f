// Bech32 strings (src/bech32.cpp), following the section "Bech32" of BIP 173.

module Bech32Checksum {

  // A symbol is a 5-bit value.
  type Symbol = bv5

  // Addition of coefficients, all of them at once.
  function Xor(a: bv32, b: bv32): bv32 {
    a ^ b
  }

  function Term(c0: bv32, bit: bv32, k: bv32): bv32 {
    if c0 & bit != 0 then k else 0
  }

  // {c0}k(x), for the coefficient c0 that moves out of the top.
  function Feedback(c0: bv32): bv32 {
    Xor(Xor(Xor(Xor(Term(c0, 1, 0x3b6a57b2), Term(c0, 2, 0x26508e6d)), Term(c0, 4, 0x1ea119fa)),
            Term(c0, 8, 0x3d4233dd)), Term(c0, 16, 0x2a1462b3))
  }

  function Top(c: bv32): bv32 {
    c >> 25
  }

  function Shifted(c: bv32): bv32 {
    (c & 0x1ffffff) << 5
  }

  function Wide(v: Symbol): bv32 {
    v as bv32
  }

  // One turn of PolyMod's loop.
  function Step(c: bv32, v: Symbol): bv32 {
    Xor(Xor(Shifted(c), Wide(v)), Feedback(Top(c)))
  }

  predicate Is30(c: bv32) {
    c < 0x40000000
  }

  // ---- a step is linear ----

  lemma {:induction false} XorAssociates(a: bv32, b: bv32, c: bv32)
    ensures Xor(Xor(a, b), c) == Xor(a, Xor(b, c)) && Xor(a, b) == Xor(b, a)
  {
  }

  lemma {:induction false} XorPairs(a: bv32, b: bv32, c: bv32, d: bv32)
    ensures Xor(Xor(a, b), Xor(c, d)) == Xor(Xor(a, c), Xor(b, d))
  {
    hide Xor;
    XorAssociates(a, b, Xor(c, d));
    XorAssociates(b, c, d);
    XorAssociates(c, b, d);
    XorAssociates(a, c, Xor(b, d));
  }

  lemma {:induction false} TermLinear(a: bv32, b: bv32, bit: bv32, k: bv32)
    requires bit == 1 || bit == 2 || bit == 4 || bit == 8 || bit == 16
    ensures Term(Xor(a, b), bit, k) == Xor(Term(a, bit, k), Term(b, bit, k))
  {
    assert (a ^ b) & bit == (a & bit) ^ (b & bit);
  }

  lemma {:induction false} FeedbackLinear(a: bv32, b: bv32)
    ensures Feedback(Xor(a, b)) == Xor(Feedback(a), Feedback(b))
  {
    hide Term, Xor;
    TermLinear(a, b, 1, 0x3b6a57b2);
    TermLinear(a, b, 2, 0x26508e6d);
    TermLinear(a, b, 4, 0x1ea119fa);
    TermLinear(a, b, 8, 0x3d4233dd);
    TermLinear(a, b, 16, 0x2a1462b3);
    var a1, a2, a4, a8 := Term(a, 1, 0x3b6a57b2), Term(a, 2, 0x26508e6d), Term(a, 4, 0x1ea119fa), Term(a, 8, 0x3d4233dd);
    var b1, b2, b4, b8 := Term(b, 1, 0x3b6a57b2), Term(b, 2, 0x26508e6d), Term(b, 4, 0x1ea119fa), Term(b, 8, 0x3d4233dd);
    XorPairs(a1, b1, a2, b2);
    XorPairs(Xor(a1, a2), Xor(b1, b2), a4, b4);
    XorPairs(Xor(Xor(a1, a2), a4), Xor(Xor(b1, b2), b4), a8, b8);
    XorPairs(Xor(Xor(Xor(a1, a2), a4), a8), Xor(Xor(Xor(b1, b2), b4), b8), Term(a, 16, 0x2a1462b3), Term(b, 16, 0x2a1462b3));
  }

  lemma {:induction false} ShiftLinear(c: bv32, d: bv32)
    ensures Shifted(Xor(c, d)) == Xor(Shifted(c), Shifted(d)) && Top(Xor(c, d)) == Xor(Top(c), Top(d))
  {
  }

  lemma {:induction false} WideLinear(v: Symbol, w: Symbol)
    ensures Wide(v ^ w) == Xor(Wide(v), Wide(w))
  {
  }

  lemma {:induction false} StepLinear(c: bv32, d: bv32, v: Symbol, w: Symbol)
    ensures Step(Xor(c, d), v ^ w) == Xor(Step(c, v), Step(d, w))
  {
    hide Shifted, Top, Feedback, Wide, Xor;
    ShiftLinear(c, d);
    FeedbackLinear(Top(c), Top(d));
    WideLinear(v, w);
    XorPairs(Shifted(c), Shifted(d), Wide(v), Wide(w));
    XorPairs(Xor(Shifted(c), Wide(v)), Xor(Shifted(d), Wide(w)), Feedback(Top(c)), Feedback(Top(d)));
  }

  lemma {:induction false} Is30Xor(c: bv32, d: bv32)
    requires Is30(c) && Is30(d)
    ensures Is30(Xor(c, d))
  {
  }

  lemma {:induction false} StepIs30(c: bv32, v: Symbol)
    ensures Is30(Step(c, v))
  {
  }

  // ---- and so it is injective ----

  lemma {:induction false} FeedbackShows(c0: bv32)
    requires c0 < 32 && Feedback(c0) & 31 == 0
    ensures c0 == 0
  {
  }

  lemma {:induction false} StepKernel(c: bv32)
    requires Is30(c) && Step(c, 0) == 0
    ensures c == 0
  {
    assert Shifted(c) & 31 == 0 && Top(c) < 32;
    hide Feedback;
    assert Feedback(Top(c)) & 31 == 0;
    FeedbackShows(Top(c));
    assert Feedback(0) == 0 by { NoFeedback(); }
    assert Shifted(c) == 0;
  }

  lemma {:induction false} NoFeedback()
    ensures Feedback(0) == 0
  {
  }

  lemma {:induction false} XorZero(a: bv32, b: bv32)
    ensures Xor(a, b) == 0 <==> a == b
  {
    hide Xor;
    XorTwice(a, b);
    XorTwice(a, a);
    XorSelf(a);
  }

  lemma {:induction false} XorSelf(a: bv32)
    ensures Xor(a, a) == 0
  {
  }

  lemma {:induction false} XorTwice(a: bv32, b: bv32)
    ensures Xor(a, Xor(a, b)) == b
  {
  }

  lemma {:induction false} StepInjective(c: bv32, d: bv32, v: Symbol)
    requires Is30(c) && Is30(d) && Step(c, v) == Step(d, v)
    ensures c == d
  {
    hide Step, Xor;
    StepLinear(c, d, v, v);
    assert v ^ v == 0;
    XorZero(Step(c, v), Step(d, v));
    Is30Xor(c, d);
    StepKernel(Xor(c, d));
    XorZero(c, d);
  }

  lemma {:induction false} StepTellsSymbols(c: bv32, v: Symbol, w: Symbol)
    requires Step(c, v) == Step(c, w)
    ensures v == w
  {
    hide Shifted, Feedback, Top;
    Cancelled(Shifted(c), v, w, Feedback(Top(c)));
  }

  lemma {:induction false} Cancelled(s: bv32, v: Symbol, w: Symbol, f: bv32)
    requires Xor(Xor(s, Wide(v)), f) == Xor(Xor(s, Wide(w)), f)
    ensures v == w
  {
  }

  // ---- whole strings of symbols ----

  function PolyFrom(c: bv32, s: seq<Symbol>): bv32 {
    if s == [] then c else Step(PolyFrom(c, s[..|s| - 1]), s[|s| - 1])
  }

  method PolyMod(s: seq<Symbol>) returns (c: bv32)
    ensures c == PolyFrom(1, s)
  {
    c := 1;
    var i := 0;
    while i < |s|
      invariant 0 <= i <= |s| && c == PolyFrom(1, s[..i])
    {
      c := Step(c, s[i]);
      assert s[..i + 1][..i] == s[..i];
      i := i + 1;
    }
    assert s[..i] == s;
  }

  lemma {:induction false} PolyIs30(c: bv32, s: seq<Symbol>)
    requires Is30(c)
    ensures Is30(PolyFrom(c, s))
  {
    hide Step;
    if s != [] {
      StepIs30(PolyFrom(c, s[..|s| - 1]), s[|s| - 1]);
    }
  }

  lemma {:induction false} PolyAppend(c: bv32, a: seq<Symbol>, b: seq<Symbol>)
    ensures PolyFrom(c, a + b) == PolyFrom(PolyFrom(c, a), b)
  {
    hide Step;
    if b == [] {
      assert a + b == a;
    } else {
      var n := |b| - 1;
      PolyAppend(c, a, b[..n]);
      assert (a + b)[..|a| + n] == a + b[..n];
    }
  }

  // Different states stay different under the same symbols.
  lemma {:induction false} PolyInjective(c: bv32, d: bv32, s: seq<Symbol>)
    requires Is30(c) && Is30(d) && PolyFrom(c, s) == PolyFrom(d, s)
    ensures c == d
  {
    hide Step;
    if s != [] {
      var n := |s| - 1;
      PolyIs30(c, s[..n]);
      PolyIs30(d, s[..n]);
      StepInjective(PolyFrom(c, s[..n]), PolyFrom(d, s[..n]), s[n]);
      PolyInjective(c, d, s[..n]);
    }
  }

  // Changing a single symbol always changes the checksum.
  lemma {:induction false} OneErrorShows(s: seq<Symbol>, i: nat, v: Symbol)
    requires i < |s| && v != s[i]
    ensures PolyFrom(1, s[i := v]) != PolyFrom(1, s)
  {
    hide Step, PolyFrom;
    var a, b := s[..i], s[i + 1..];
    assert s == a + [s[i]] + b && s[i := v] == a + [v] + b;
    PolyAppend(1, a + [s[i]], b);
    PolyAppend(1, a + [v], b);
    PolyOne(a, s[i]);
    PolyOne(a, v);
    var c := PolyFrom(1, a);
    StepIs30(c, s[i]);
    StepIs30(c, v);
    if PolyFrom(Step(c, v), b) == PolyFrom(Step(c, s[i]), b) {
      PolyInjective(Step(c, v), Step(c, s[i]), b);
      StepTellsSymbols(c, v, s[i]);
    }
  }

  lemma {:induction false} PolyOne(a: seq<Symbol>, v: Symbol)
    ensures PolyFrom(1, a + [v]) == Step(PolyFrom(1, a), v)
  {
    assert (a + [v])[..|a|] == a;
  }

  // ---- the checksum ----

  function Put(x: bv32, v: Symbol): bv32 {
    (x << 5) | Wide(v)
  }

  // Six symbols in a row as one number, the first one highest, and back.
  function Pack(s: seq<Symbol>): bv32
    requires |s| == 6
  {
    Put(Put(Put(Put(Put(Put(0, s[0]), s[1]), s[2]), s[3]), s[4]), s[5])
  }

  function Group(m: bv32, shift: bv32): Symbol
    requires shift <= 25
  {
    ((m >> shift) & 31) as Symbol
  }

  function Unpack(m: bv32): (s: seq<Symbol>)
    ensures |s| == 6
  {
    [Group(m, 25), Group(m, 20), Group(m, 15), Group(m, 10), Group(m, 5), Group(m, 0)]
  }

  lemma {:induction false} PackUnpack(m: bv32)
    requires Is30(m)
    ensures Pack(Unpack(m)) == m
  {
  }

  lemma {:induction false} UnpackPack(s: seq<Symbol>)
    requires |s| == 6
    ensures Unpack(Pack(s)) == s
  {
  }

  const ZEROS: seq<Symbol> := [0, 0, 0, 0, 0, 0]

  lemma {:induction false} StepPut(x: bv32, v: Symbol)
    requires x < 0x2000000
    ensures Step(x, v) == Put(x, v)
  {
    assert Top(x) == 0 && Feedback(0) == 0;
    assert (x << 5) & Wide(v) == 0;
  }

  lemma {:induction false} PutSmall(x: bv32, v: Symbol, bound: bv32)
    requires x < bound <= 0x100000
    ensures Put(x, v) < bound << 5
  {
  }

  lemma {:induction false} PolyNext(c: bv32, s: seq<Symbol>, k: nat)
    requires k < |s|
    ensures PolyFrom(c, s[..k + 1]) == Step(PolyFrom(c, s[..k]), s[k])
  {
    assert s[..k + 1][..k] == s[..k];
  }

  // From nothing, six symbols go in as they are.
  lemma {:induction false} PolyOfSix(s: seq<Symbol>)
    requires |s| == 6
    ensures PolyFrom(0, s) == Pack(s)
  {
    hide Step, Put;
    assert PolyFrom(0, s[..0]) == 0;
    hide PolyFrom;
    var x1 := Put(0, s[0]);
    var x2 := Put(x1, s[1]);
    var x3 := Put(x2, s[2]);
    var x4 := Put(x3, s[3]);
    var x5 := Put(x4, s[4]);
    Grows(s, x1, x2, x3, x4, x5);
    PolyNext(0, s, 0);
    StepPut(0, s[0]);
    PolyNext(0, s, 1);
    StepPut(x1, s[1]);
    PolyNext(0, s, 2);
    StepPut(x2, s[2]);
    PolyNext(0, s, 3);
    StepPut(x3, s[3]);
    PolyNext(0, s, 4);
    StepPut(x4, s[4]);
    PolyNext(0, s, 5);
    StepPut(x5, s[5]);
    assert s[..6] == s;
  }

  lemma {:induction false} Grows(s: seq<Symbol>, x1: bv32, x2: bv32, x3: bv32, x4: bv32, x5: bv32)
    requires |s| == 6 && x1 == Put(0, s[0]) && x2 == Put(x1, s[1]) && x3 == Put(x2, s[2]) && x4 == Put(x3, s[3]) && x5 == Put(x4, s[4])
    ensures x1 < 0x2000000 && x2 < 0x2000000 && x3 < 0x2000000 && x4 < 0x2000000 && x5 < 0x2000000
  {
    hide Put;
    PutSmall(0, s[0], 1);
    PutSmall(x1, s[1], 0x20);
    PutSmall(x2, s[2], 0x400);
    PutSmall(x3, s[3], 0x8000);
    PutSmall(x4, s[4], 0x100000);
  }

  // The six symbols add to what six zeros would give.
  lemma {:induction false} PolyTail(c: bv32, s: seq<Symbol>)
    requires |s| == 6
    ensures PolyFrom(c, s) == Xor(PolyFrom(c, ZEROS), Pack(s))
  {
    PolyOfSix(s);
    PolyLinear(c, 0, ZEROS, s, s);
    assert Xor(c, 0) == c;
  }

  lemma {:induction false} PolyLinear(c: bv32, d: bv32, a: seq<Symbol>, b: seq<Symbol>, s: seq<Symbol>)
    requires |a| == |b| == |s| && forall i :: 0 <= i < |s| ==> s[i] == a[i] ^ b[i]
    ensures PolyFrom(Xor(c, d), s) == Xor(PolyFrom(c, a), PolyFrom(d, b))
  {
    hide Step, Xor;
    if s != [] {
      var n := |s| - 1;
      PolyLinear(c, d, a[..n], b[..n], s[..n]);
      StepLinear(PolyFrom(c, a[..n]), PolyFrom(d, b[..n]), a[n], b[n]);
    }
  }

  method CreateChecksum(enc: seq<Symbol>) returns (checksum: seq<Symbol>)
    ensures |checksum| == 6 && PolyFrom(1, enc + checksum) == 1
    ensures forall s :: |s| == 6 && PolyFrom(1, enc + s) == 1 ==> s == checksum
  {
    hide Step, Xor, Pack, Unpack, Group;
    var poly := PolyMod(enc + ZEROS);
    var mod := Xor(poly, 1);
    checksum := Unpack(mod);
    ghost var c := PolyFrom(1, enc);
    PolyAppend(1, enc, ZEROS);
    PolyIs30(1, enc + ZEROS);
    Is30Xor(poly, 1);
    PackUnpack(mod);
    PolyAppend(1, enc, checksum);
    PolyTail(c, checksum);
    XorTwice(poly, 1);
    forall s: seq<Symbol> | |s| == 6 && PolyFrom(1, enc + s) == 1
      ensures s == checksum
    {
      PolyAppend(1, enc, s);
      PolyTail(c, s);
      XorTwice(poly, Pack(s));
      UnpackPack(s);
    }
  }
}

module Bech32 {
  import opened Basics
  import opened Bech32Checksum

  datatype Decoded = Decoded(hrp: string, values: seq<Symbol>)

  // CHARSET, in rows of eight.
  const ROW0 := "qpzry9x8"
  const ROW1 := "gf2tvdw0"
  const ROW2 := "s3jn54kh"
  const ROW3 := "ce6mua7l"

  function Pick(row: string, k: Symbol): char
    requires |row| == 8 && k < 8
  {
    if k < 4 then (if k == 0 then row[0] else if k == 1 then row[1] else if k == 2 then row[2] else row[3])
    else (if k == 4 then row[4] else if k == 5 then row[5] else if k == 6 then row[6] else row[7])
  }

  function CharOf(v: Symbol): char {
    if v < 8 then Pick(ROW0, v) else if v < 16 then Pick(ROW1, v - 8)
    else if v < 24 then Pick(ROW2, v - 16) else Pick(ROW3, v - 24)
  }

  // CHARSET_REV, in rows of eight from '0' on, with None for -1; before these it holds nothing
  // but -1, and the rows of the capitals are there a second time for the other letters.
  const REV0: seq<Option<Symbol>> := [Some(15), None, Some(10), Some(17), Some(21), Some(20), Some(26), Some(30)]
  const REV1: seq<Option<Symbol>> := [Some(7), Some(5), None, None, None, None, None, None]
  const REV2: seq<Option<Symbol>> := [None, Some(29), None, Some(24), Some(13), Some(25), Some(9), Some(8)]
  const REV3: seq<Option<Symbol>> := [Some(23), None, Some(18), Some(22), Some(31), Some(27), Some(19), None]
  const REV4: seq<Option<Symbol>> := [Some(1), Some(0), Some(3), Some(16), Some(11), Some(28), Some(12), Some(14)]
  const REV5: seq<Option<Symbol>> := [Some(6), Some(4), Some(2), None, None, None, None, None]

  function RevIn(row: seq<Option<Symbol>>, k: int): Option<Symbol> {
    if 0 <= k < |row| then row[k] else None
  }

  // CHARSET_REV
  function CharsetRev(c: int): Option<Symbol> {
    if c < 48 then None
    else if c < 56 then RevIn(REV0, c - 48) else if c < 64 then RevIn(REV1, c - 56)
    else if c < 72 then RevIn(REV2, c - 64) else if c < 80 then RevIn(REV3, c - 72)
    else if c < 88 then RevIn(REV4, c - 80) else if c < 96 then RevIn(REV5, c - 88)
    else if c < 104 then RevIn(REV2, c - 96) else if c < 112 then RevIn(REV3, c - 104)
    else if c < 120 then RevIn(REV4, c - 112) else RevIn(REV5, c - 120)
  }

  function RevOf(c: char): Option<Symbol> {
    if c as int < 33 || c as int > 126 then None else CharsetRev(c as int)
  }

  // The letters of a row of the table are where CHARSET has them.
  ghost predicate RowRight(row: seq<Option<Symbol>>, base: int) {
    forall k :: 0 <= k < |row| && row[k].Some? ==> CharOf(row[k].value) as int == base + k
  }

  lemma {:induction false} Row0Right()
    ensures RowRight(REV0, 48)
  {
  }

  lemma {:induction false} Row1Right()
    ensures RowRight(REV1, 56)
  {
  }

  lemma {:induction false} Row2Right()
    ensures RowRight(REV2, 96)
  {
  }

  lemma {:induction false} Row3Right()
    ensures RowRight(REV3, 104)
  {
  }

  lemma {:induction false} Row4Right()
    ensures RowRight(REV4, 112)
  {
  }

  lemma {:induction false} Row5Right()
    ensures RowRight(REV5, 120)
  {
  }

  lemma {:induction false} InRow(row: seq<Option<Symbol>>, base: int, k: int)
    requires RowRight(row, base) && RevIn(row, k).Some?
    ensures 0 <= k < |row| && CharOf(RevIn(row, k).value) as int == base + k
  {
    hide CharOf;
  }

  // What stands around the letters is not in the table.
  lemma {:induction false} AroundLetters(k: int)
    ensures RevIn(REV2, 0).None? && (k > 2 ==> RevIn(REV5, k).None?)
  {
  }

  lemma {:induction false} CharOfRev(c: char)
    requires RevOf(c).Some?
    ensures CharOf(RevOf(c).value) == LowerCase(c)
  {
    hide CharOf, RowRight, RevIn;
    Row0Right();
    Row1Right();
    Row2Right();
    Row3Right();
    Row4Right();
    Row5Right();
    var n := c as int;
    if n < 56 {
      InRow(REV0, 48, n - 48);
    } else if n < 64 {
      InRow(REV1, 56, n - 56);
    } else {
      var l := if n < 96 then n + 32 else n;
      AroundLetters(l - 120);
      if l < 104 {
        InRow(REV2, 96, l - 96);
      } else if l < 112 {
        InRow(REV3, 104, l - 104);
      } else if l < 120 {
        InRow(REV4, 112, l - 112);
      } else {
        InRow(REV5, 120, l - 120);
      }
    }
  }

  lemma {:induction false} RevOfChar(v: Symbol)
    ensures RevOf(CharOf(v)) == Some(v) && CharOf(v) != '1' && Printable(CharOf(v)) && !IsUpper(CharOf(v))
  {
  }

  predicate Printable(c: char) {
    33 <= c as int <= 126
  }

  predicate IsLower(c: char) {
    'a' <= c <= 'z'
  }

  predicate IsUpper(c: char) {
    'A' <= c <= 'Z'
  }

  function LowerCase(c: char): char {
    if IsUpper(c) then (c as int - 'A' as int + 'a' as int) as char else c
  }

  // The high bits of every character, a zero, and the low bits.
  function ExpandHRP(hrp: string): seq<Symbol> {
    seq(|hrp|, i requires 0 <= i < |hrp| => ((hrp[i] as int / 32) % 8) as Symbol) + [0] +
    seq(|hrp|, i requires 0 <= i < |hrp| => (hrp[i] as int % 32) as Symbol)
  }

  function Chars(s: seq<Symbol>): string {
    seq(|s|, i requires 0 <= i < |s| => CharOf(s[i]))
  }

  function Lowered(str: string): string {
    seq(|str|, i requires 0 <= i < |str| => LowerCase(str[i]))
  }

  // str spells out hrp, the separator, the values and six symbols that make the checksum 1.
  ghost predicate Spells(hrp: string, values: seq<Symbol>, str: string) {
    exists checksum :: SpellsWith(hrp, values, checksum, str)
  }

  ghost predicate SpellsWith(hrp: string, values: seq<Symbol>, checksum: seq<Symbol>, str: string) {
    |checksum| == 6 && PolyFrom(1, ExpandHRP(hrp) + values + checksum) == 1 && str == hrp + "1" + Chars(values + checksum)
  }

  method Encode(hrp: string, values: seq<Symbol>) returns (str: string)
    ensures Spells(hrp, values, str)
    ensures forall other :: Spells(hrp, values, other) ==> other == str
  {
    hide CharOf, PolyFrom;
    var checksum := CreateChecksum(ExpandHRP(hrp) + values);
    var combined := values + checksum;
    str := hrp + "1";
    var i := 0;
    while i < |combined|
      invariant 0 <= i <= |combined| && str == hrp + "1" + Chars(combined[..i])
    {
      str := str + [CharOf(combined[i])];
      assert Chars(combined[..i + 1]) == Chars(combined[..i]) + [CharOf(combined[i])];
      i := i + 1;
    }
    assert combined[..i] == combined;
    assert SpellsWith(hrp, values, checksum, str);
    forall other | Spells(hrp, values, other)
      ensures other == str
    {
      var s :| SpellsWith(hrp, values, s, other);
      assert |s| == 6 && s == checksum;
    }
  }

  // ---- decoding ----

  ghost predicate CharsOk(str: string) {
    && (forall i :: 0 <= i < |str| ==> Printable(str[i]))
    && ((forall i :: 0 <= i < |str| ==> !IsLower(str[i])) || (forall i :: 0 <= i < |str| ==> !IsUpper(str[i])))
  }

  ghost predicate LastOne(str: string, pos: int) {
    && -1 <= pos < |str| && (pos >= 0 ==> str[pos] == '1')
    && forall i :: pos < i < |str| ==> str[i] != '1'
  }

  ghost predicate DataOk(data: string) {
    forall i :: 0 <= i < |data| ==> RevOf(data[i]).Some?
  }

  method CheckChars(str: string) returns (ok: bool)
    ensures ok <==> CharsOk(str)
  {
    var lower, upper, i := false, false, 0;
    while i < |str|
      invariant 0 <= i <= |str| && forall j :: 0 <= j < i ==> Printable(str[j])
      invariant lower <==> exists j :: 0 <= j < i && IsLower(str[j])
      invariant upper <==> exists j :: 0 <= j < i && IsUpper(str[j])
    {
      if !Printable(str[i]) {
        return false;
      }
      lower := lower || IsLower(str[i]);
      upper := upper || IsUpper(str[i]);
      i := i + 1;
    }
    ok := !(lower && upper);
  }

  method FindLastOne(str: string) returns (pos: int)
    ensures LastOne(str, pos)
  {
    pos := |str| - 1;
    while pos >= 0 && str[pos] != '1'
      invariant -1 <= pos < |str| && forall i :: pos < i < |str| ==> str[i] != '1'
    {
      pos := pos - 1;
    }
  }

  method ReadValues(data: string) returns (values: Option<seq<Symbol>>)
    ensures values.Some? <==> DataOk(data)
    ensures values.Some? ==> |values.value| == |data| && forall i :: 0 <= i < |data| ==> RevOf(data[i]) == Some(values.value[i])
  {
    hide RevOf;
    var out: seq<Symbol> := [];
    while |out| < |data|
      invariant |out| <= |data| && forall i :: 0 <= i < |out| ==> RevOf(data[i]) == Some(out[i])
    {
      if RevOf(data[|out|]).None? {
        return None;
      }
      out := out + [RevOf(data[|out|]).value];
    }
    values := Some(out);
  }

  // What Decode accepts.
  ghost predicate Decodable(str: string) {
    && CharsOk(str) && |str| <= 90
    && exists pos :: LastOne(str, pos) && DecodableAt(str, pos)
  }

  ghost predicate DecodableAt(str: string, pos: int) {
    && 1 <= pos && pos + 7 <= |str| && DataOk(str[pos + 1..])
    && PolyFrom(1, ExpandHRP(Lowered(str[..pos])) + Values(str[pos + 1..])) == 1
  }

  ghost function Values(data: string): seq<Symbol> {
    seq(|data|, i requires 0 <= i < |data| => if RevOf(data[i]).Some? then RevOf(data[i]).value else 0)
  }

  method Decode(str: string) returns (r: Option<Decoded>)
    ensures r.Some? <==> Decodable(str)
    ensures r.Some? ==> Spells(r.value.hrp, r.value.values, Lowered(str)) && LastOne(str, |r.value.hrp|)
  {
    hide RevOf, CharOf, PolyFrom, CharsOk, ExpandHRP;
    var ok := CheckChars(str);
    if !ok {
      return None;
    }
    var pos := FindLastOne(str);
    OnlyLastOne(str, pos);
    if |str| > 90 || pos < 1 || pos + 7 > |str| {
      return None;
    }
    var read := ReadValues(str[pos + 1..]);
    if read.None? {
      return None;
    }
    var values := read.value;
    assert values == Values(str[pos + 1..]);
    var hrp := Lowered(str[..pos]);
    var mod := PolyMod(ExpandHRP(hrp) + values);
    if mod != 1 {
      return None;
    }
    var n := |values| - 6;
    DecodeSpells(str, pos, hrp, values);
    r := Some(Decoded(hrp, values[..n]));
  }

  lemma {:induction false} OnlyLastOne(str: string, pos: int)
    requires LastOne(str, pos)
    ensures forall p :: LastOne(str, p) ==> p == pos
  {
  }

  lemma {:induction false} DecodeSpells(str: string, pos: int, hrp: string, values: seq<Symbol>)
    requires 1 <= pos && pos + 7 <= |str| && str[pos] == '1' && hrp == Lowered(str[..pos])
    requires |values| == |str| - 1 - pos && forall i :: 0 <= i < |values| ==> RevOf(str[pos + 1..][i]) == Some(values[i])
    requires PolyFrom(1, ExpandHRP(hrp) + values) == 1
    ensures Spells(hrp, values[..|values| - 6], Lowered(str))
  {
    hide RevOf, CharOf, PolyFrom, ExpandHRP;
    var n := |values| - 6;
    var a, b := values[..n], values[n..];
    assert values == a + b && ExpandHRP(hrp) + values == ExpandHRP(hrp) + a + b;
    forall i | 0 <= i < |values|
      ensures CharOf(values[i]) == LowerCase(str[pos + 1 + i])
    {
      assert RevOf(str[pos + 1..][i]) == Some(values[i]);
      CharOfRev(str[pos + 1..][i]);
    }
    var spelled := hrp + "1" + Chars(a + b);
    forall i | 0 <= i < |str|
      ensures spelled[i] == Lowered(str)[i]
    {
    }
    assert spelled == Lowered(str);
    assert SpellsWith(hrp, a, b, Lowered(str));
  }

  // ---- round trips ----

  ghost predicate LegalHRP(hrp: string) {
    hrp != [] && forall i :: 0 <= i < |hrp| ==> Printable(hrp[i]) && !IsUpper(hrp[i])
  }

  // What is encoded is decoded again, if it fits into 90 characters, and only then.
  method EncodeAndDecode(hrp: string, values: seq<Symbol>) returns (r: Option<Decoded>)
    requires LegalHRP(hrp)
    ensures r == if |hrp| + |values| + 7 <= 90 then Some(Decoded(hrp, values)) else None
  {
    hide RevOf, CharOf, PolyFrom, ExpandHRP;
    var str := Encode(hrp, values);
    r := Decode(str);
    ghost var checksum :| SpellsWith(hrp, values, checksum, str);
    SpelledIsDecodable(hrp, values, checksum, str);
    if r.Some? {
      SpelledOnce(hrp, values, checksum, str, r.value.hrp, r.value.values);
    }
  }

  lemma {:induction false} SpelledIsDecodable(hrp: string, values: seq<Symbol>, checksum: seq<Symbol>, str: string)
    requires LegalHRP(hrp) && SpellsWith(hrp, values, checksum, str)
    ensures |str| == |hrp| + |values| + 7 && LastOne(str, |hrp|) && Lowered(str) == str
    ensures |str| <= 90 ==> Decodable(str)
  {
    hide RevOf, CharOf, PolyFrom, ExpandHRP;
    var s, pos := values + checksum, |hrp|;
    forall i | pos < i < |str|
      ensures RevOf(str[i]) == Some(s[i - pos - 1]) && str[i] != '1' && Printable(str[i]) && !IsUpper(str[i])
    {
      RevOfChar(s[i - pos - 1]);
    }
    assert Values(str[pos + 1..]) == s;
    assert str[..pos] == hrp && Lowered(hrp) == hrp;
    assert ExpandHRP(hrp) + s == ExpandHRP(hrp) + values + checksum;
    assert CharsOk(str);
    assert DecodableAt(str, pos);
  }

  lemma {:induction false} SpelledOnce(hrp: string, values: seq<Symbol>, checksum: seq<Symbol>, str: string,
                                       hrp': string, values': seq<Symbol>)
    requires SpellsWith(hrp, values, checksum, str) && Spells(hrp', values', str) && |hrp'| == |hrp|
    ensures hrp' == hrp && values' == values
  {
    hide RevOf, CharOf, PolyFrom, ExpandHRP;
    var checksum' :| SpellsWith(hrp', values', checksum', str);
    assert hrp == str[..|hrp|] && hrp' == str[..|hrp'|];
    var s, s' := values + checksum, values' + checksum';
    assert Chars(s) == str[|hrp| + 1..] && Chars(s') == str[|hrp'| + 1..];
    forall i | 0 <= i < |s|
      ensures s[i] == s'[i]
    {
      assert Chars(s)[i] == Chars(s')[i];
      RevOfChar(s[i]);
      RevOfChar(s'[i]);
    }
    assert values == s[..|values|] && values' == s'[..|values'|];
  }

  // What is decoded is encoded again as the same string in lower case.
  method DecodeAndEncode(str: string) returns (r: Option<string>)
    ensures r == if Decodable(str) then Some(Lowered(str)) else None
  {
    hide Decodable;
    var d := Decode(str);
    if d.None? {
      return None;
    }
    var again := Encode(d.value.hrp, d.value.values);
    r := Some(again);
  }

  // Two strings with the same prefix that differ in a single symbol do not both verify.
  lemma {:induction false} OneErrorIsDetected(hrp: string, values: seq<Symbol>, i: nat, v: Symbol)
    requires i < |values| && v != values[i] && PolyFrom(1, ExpandHRP(hrp) + values) == 1
    ensures PolyFrom(1, ExpandHRP(hrp) + values[i := v]) != 1
  {
    hide PolyFrom;
    var e := ExpandHRP(hrp);
    OneErrorShows(e + values, |e| + i, v);
    assert (e + values)[|e| + i := v] == e + values[i := v];
  }
}
