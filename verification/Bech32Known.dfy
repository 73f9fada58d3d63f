// Strings that BIP 173 lists as valid. They fix the expansion of the prefix, the generator and
// the alphabet.

module Bech32Known {
  import opened Bech32Checksum
  import opened Bech32

  lemma {:induction false} StepsTo(start: bv32, s: seq<Symbol>, i: nat, v: Symbol, c: bv32, c': bv32)
    requires i < |s| && s[i] == v && PolyFrom(start, s[..i]) == c && Step(c, v) == c'
    ensures PolyFrom(start, s[..i + 1]) == c'
  {
    hide Step;
    assert s[..i + 1][..i] == s[..i];
  }

  lemma {:induction false} Starts(start: bv32, s: seq<Symbol>)
    ensures PolyFrom(start, s[..0]) == start
  {
    assert s[..0] == [];
  }

  lemma {:induction false} Ends(start: bv32, s: seq<Symbol>, n: nat)
    requires |s| == n
    ensures PolyFrom(start, s[..n]) == PolyFrom(start, s)
  {
    assert s[..n] == s;
  }

  lemma {:induction false} CharsAppend(a: seq<Symbol>, b: seq<Symbol>)
    ensures Chars(a + b) == Chars(a) + Chars(b)
  {
    hide CharOf;
  }

  lemma {:induction false} Accepted(hrp: string, values: seq<Symbol>, checksum: seq<Symbol>, data: string, d: Decoded)
    requires LegalHRP(hrp) && |checksum| == 6 && |hrp| + |values| + 7 <= 90
    requires PolyFrom(1, ExpandHRP(hrp) + values + checksum) == 1 && Chars(values + checksum) == data
    ensures Decodable(hrp + "1" + data)
    ensures Spells(d.hrp, d.values, hrp + "1" + data) && |d.hrp| == |hrp| ==> d == Decoded(hrp, values)
  {
    hide CharOf, RevOf, PolyFrom, ExpandHRP, Decodable, Chars;
    var str := hrp + "1" + data;
    assert SpellsWith(hrp, values, checksum, str);
    SpelledIsDecodable(hrp, values, checksum, str);
    if Spells(d.hrp, d.values, str) && |d.hrp| == |hrp| {
      SpelledOnce(hrp, values, checksum, str, d.hrp, d.values);
    }
  }

  const SHORT_PREFIX: seq<Symbol> := [3, 0, 1]

  lemma {:induction false} ShortPrefixPart1()
    requires PolyFrom(0x1, SHORT_PREFIX[..0]) == 0x1
    ensures PolyFrom(0x1, SHORT_PREFIX[..3]) == 0x8c01
  {
    hide PolyFrom;
    StepsTo(0x1, SHORT_PREFIX, 0, 3, 0x1, 0x23);
    StepsTo(0x1, SHORT_PREFIX, 1, 0, 0x23, 0x460);
    StepsTo(0x1, SHORT_PREFIX, 2, 1, 0x460, 0x8c01);
  }

  lemma {:induction false} ShortPrefixPolynomial()
    ensures PolyFrom(0x1, SHORT_PREFIX) == 0x8c01
  {
    hide PolyFrom;
    Starts(0x1, SHORT_PREFIX);
    ShortPrefixPart1();
    Ends(0x1, SHORT_PREFIX, 3);
  }

  const SHORT_CHECKSUM: seq<Symbol> := [10, 28, 25, 31, 20, 31]

  lemma {:induction false} ShortChecksumPart1()
    requires PolyFrom(0x8c01, SHORT_CHECKSUM[..0]) == 0x8c01
    ensures PolyFrom(0x8c01, SHORT_CHECKSUM[..3]) == 0x3d6afc2b
  {
    hide PolyFrom;
    StepsTo(0x8c01, SHORT_CHECKSUM, 0, 10, 0x8c01, 0x11802a);
    StepsTo(0x8c01, SHORT_CHECKSUM, 1, 28, 0x11802a, 0x230055c);
    StepsTo(0x8c01, SHORT_CHECKSUM, 2, 25, 0x230055c, 0x3d6afc2b);
  }

  lemma {:induction false} ShortChecksumPart2()
    requires PolyFrom(0x8c01, SHORT_CHECKSUM[..3]) == 0x3d6afc2b
    ensures PolyFrom(0x8c01, SHORT_CHECKSUM[..6]) == 0x1
  {
    hide PolyFrom;
    StepsTo(0x8c01, SHORT_CHECKSUM, 3, 31, 0x3d6afc2b, 0x2f84386);
    StepsTo(0x8c01, SHORT_CHECKSUM, 4, 20, 0x2f84386, 0x24622766);
    StepsTo(0x8c01, SHORT_CHECKSUM, 5, 31, 0x24622766, 0x1);
  }

  lemma {:induction false} ShortChecksumPolynomial()
    ensures PolyFrom(0x8c01, SHORT_CHECKSUM) == 0x1
  {
    hide PolyFrom;
    Starts(0x8c01, SHORT_CHECKSUM);
    ShortChecksumPart1();
    ShortChecksumPart2();
    Ends(0x8c01, SHORT_CHECKSUM, 6);
  }

  lemma {:induction false} ShortPolynomial()
    ensures PolyFrom(1, SHORT_PREFIX + SHORT_CHECKSUM) == 1
  {
    hide PolyFrom;
    ShortPrefixPolynomial();
    ShortChecksumPolynomial();
    PolyAppend(1, SHORT_PREFIX, SHORT_CHECKSUM);
  }

  lemma {:induction false} ShortChecksumSpelled()
    ensures Chars(SHORT_CHECKSUM) == "2uel5l"
  {
  }

  lemma {:induction false} ShortExpanded()
    ensures ExpandHRP("a") == SHORT_PREFIX
  {
    var e := ExpandHRP("a");
    assert |e| == 3;
    assert e[0] == 3;
    assert e[1] == 0;
    assert e[2] == 1;
  }

  // a12uel5l
  const SHORT_STRING: string := "a" + "1" + ("2uel5l")

  // It is valid, and stands for this prefix and these values.
  lemma {:induction false} ShortIsValid(d: Decoded)
    ensures Decodable(SHORT_STRING)
    ensures Spells(d.hrp, d.values, SHORT_STRING) && |d.hrp| == 1 ==> d == Decoded("a", [])
  {
    hide CharOf, RevOf, PolyFrom, ExpandHRP, Decodable, Spells, Chars;
    ShortExpanded();
    ShortPolynomial();
    ShortChecksumSpelled();
    var values: seq<Symbol> := [];
    assert SHORT_PREFIX + values + SHORT_CHECKSUM == SHORT_PREFIX + SHORT_CHECKSUM;
    assert values + SHORT_CHECKSUM == SHORT_CHECKSUM;
    Accepted("a", values, SHORT_CHECKSUM, "2uel5l", d);
  }

  const LONG_PREFIX: seq<Symbol> := [3, 3, 3, 3, 3, 3, 0, 1, 2, 3, 4, 5, 6]

  lemma {:induction false} LongPrefixPart1()
    requires PolyFrom(0x1, LONG_PREFIX[..0]) == 0x1
    ensures PolyFrom(0x1, LONG_PREFIX[..3]) == 0x8c63
  {
    hide PolyFrom;
    StepsTo(0x1, LONG_PREFIX, 0, 3, 0x1, 0x23);
    StepsTo(0x1, LONG_PREFIX, 1, 3, 0x23, 0x463);
    StepsTo(0x1, LONG_PREFIX, 2, 3, 0x463, 0x8c63);
  }

  lemma {:induction false} LongPrefixPart2()
    requires PolyFrom(0x1, LONG_PREFIX[..3]) == 0x8c63
    ensures PolyFrom(0x1, LONG_PREFIX[..6]) == 0x3d5bdbd1
  {
    hide PolyFrom;
    StepsTo(0x1, LONG_PREFIX, 3, 3, 0x8c63, 0x118c63);
    StepsTo(0x1, LONG_PREFIX, 4, 3, 0x118c63, 0x2318c63);
    StepsTo(0x1, LONG_PREFIX, 5, 3, 0x2318c63, 0x3d5bdbd1);
  }

  lemma {:induction false} LongPrefixPart3()
    requires PolyFrom(0x1, LONG_PREFIX[..6]) == 0x3d5bdbd1
    ensures PolyFrom(0x1, LONG_PREFIX[..9]) == 0x17456f7b
  {
    hide PolyFrom;
    StepsTo(0x1, LONG_PREFIX, 6, 0, 0x3d5bdbd1, 0x4dcbcd9);
    StepsTo(0x1, LONG_PREFIX, 7, 1, 0x4dcbcd9, 0x3dc7154c);
    StepsTo(0x1, LONG_PREFIX, 8, 2, 0x3dc7154c, 0x17456f7b);
  }

  lemma {:induction false} LongPrefixPart4()
    requires PolyFrom(0x1, LONG_PREFIX[..9]) == 0x17456f7b
    ensures PolyFrom(0x1, LONG_PREFIX[..12]) == 0x266635a8
  {
    hide PolyFrom;
    StepsTo(0x1, LONG_PREFIX, 9, 3, 0x17456f7b, 0x8d50561);
    StepsTo(0x1, LONG_PREFIX, 10, 4, 0x8d50561, 0x401b5de);
    StepsTo(0x1, LONG_PREFIX, 11, 5, 0x401b5de, 0x266635a8);
  }

  lemma {:induction false} LongPrefixPart5()
    requires PolyFrom(0x1, LONG_PREFIX[..12]) == 0x266635a8
    ensures PolyFrom(0x1, LONG_PREFIX[..13]) == 0x3be80e6a
  {
    hide PolyFrom;
    StepsTo(0x1, LONG_PREFIX, 12, 6, 0x266635a8, 0x3be80e6a);
  }

  lemma {:induction false} LongPrefixPolynomial()
    ensures PolyFrom(0x1, LONG_PREFIX) == 0x3be80e6a
  {
    hide PolyFrom;
    Starts(0x1, LONG_PREFIX);
    LongPrefixPart1();
    LongPrefixPart2();
    LongPrefixPart3();
    LongPrefixPart4();
    LongPrefixPart5();
    Ends(0x1, LONG_PREFIX, 13);
  }

  const LONG_VALUES1: seq<Symbol> := [0, 1, 2, 3, 4, 5, 6, 7]

  lemma {:induction false} LongValues1Part1()
    requires PolyFrom(0x3be80e6a, LONG_VALUES1[..0]) == 0x3be80e6a
    ensures PolyFrom(0x3be80e6a, LONG_VALUES1[..3]) == 0x1767cdec
  {
    hide PolyFrom;
    StepsTo(0x3be80e6a, LONG_VALUES1, 0, 0, 0x3be80e6a, 0xf9cd266);
    StepsTo(0x3be80e6a, LONG_VALUES1, 1, 1, 0xf9cd266, 0x30018ce4);
    StepsTo(0x3be80e6a, LONG_VALUES1, 2, 2, 0x30018ce4, 0x1767cdec);
  }

  lemma {:induction false} LongValues1Part2()
    requires PolyFrom(0x3be80e6a, LONG_VALUES1[..3]) == 0x1767cdec
    ensures PolyFrom(0x3be80e6a, LONG_VALUES1[..6]) == 0x2fd98d2c
  {
    hide PolyFrom;
    StepsTo(0x3be80e6a, LONG_VALUES1, 3, 3, 0x1767cdec, 0xc815781);
    StepsTo(0x3be80e6a, LONG_VALUES1, 4, 4, 0xc815781, 0x28db67b3);
    StepsTo(0x3be80e6a, LONG_VALUES1, 5, 5, 0x28db67b3, 0x2fd98d2c);
  }

  lemma {:induction false} LongValues1Part3()
    requires PolyFrom(0x3be80e6a, LONG_VALUES1[..6]) == 0x2fd98d2c
    ensures PolyFrom(0x3be80e6a, LONG_VALUES1[..8]) == 0x11e88668
  {
    hide PolyFrom;
    StepsTo(0x3be80e6a, LONG_VALUES1, 6, 6, 0x2fd98d2c, 0x12be0710);
    StepsTo(0x3be80e6a, LONG_VALUES1, 7, 7, 0x12be0710, 0x11e88668);
  }

  lemma {:induction false} LongValues1Polynomial()
    ensures PolyFrom(0x3be80e6a, LONG_VALUES1) == 0x11e88668
  {
    hide PolyFrom;
    Starts(0x3be80e6a, LONG_VALUES1);
    LongValues1Part1();
    LongValues1Part2();
    LongValues1Part3();
    Ends(0x3be80e6a, LONG_VALUES1, 8);
  }

  const LONG_VALUES2: seq<Symbol> := [8, 9, 10, 11, 12, 13, 14, 15]

  lemma {:induction false} LongValues2Part1()
    requires PolyFrom(0x11e88668, LONG_VALUES2[..0]) == 0x11e88668
    ensures PolyFrom(0x11e88668, LONG_VALUES2[..3]) == 0x2e301b62
  {
    hide PolyFrom;
    StepsTo(0x11e88668, LONG_VALUES2, 0, 8, 0x11e88668, 0x52fed5);
    StepsTo(0x11e88668, LONG_VALUES2, 1, 9, 0x52fed5, 0xa5fdaa9);
    StepsTo(0x11e88668, LONG_VALUES2, 2, 10, 0xa5fdaa9, 0x2e301b62);
  }

  lemma {:induction false} LongValues2Part2()
    requires PolyFrom(0x11e88668, LONG_VALUES2[..3]) == 0x2e301b62
    ensures PolyFrom(0x11e88668, LONG_VALUES2[..6]) == 0x212c0d6a
  {
    hide PolyFrom;
    StepsTo(0x11e88668, LONG_VALUES2, 3, 11, 0x2e301b62, 0x2f8ccedd);
    StepsTo(0x11e88668, LONG_VALUES2, 4, 12, 0x2f8ccedd, 0x1816793a);
    StepsTo(0x11e88668, LONG_VALUES2, 5, 13, 0x1816793a, 0x212c0d6a);
  }

  lemma {:induction false} LongValues2Part3()
    requires PolyFrom(0x11e88668, LONG_VALUES2[..6]) == 0x212c0d6a
    ensures PolyFrom(0x11e88668, LONG_VALUES2[..8]) == 0x31223f8a
  {
    hide PolyFrom;
    StepsTo(0x11e88668, LONG_VALUES2, 6, 14, 0x212c0d6a, 0xf95cffd);
    StepsTo(0x11e88668, LONG_VALUES2, 7, 15, 0xf95cffd, 0x31223f8a);
  }

  lemma {:induction false} LongValues2Polynomial()
    ensures PolyFrom(0x11e88668, LONG_VALUES2) == 0x31223f8a
  {
    hide PolyFrom;
    Starts(0x11e88668, LONG_VALUES2);
    LongValues2Part1();
    LongValues2Part2();
    LongValues2Part3();
    Ends(0x11e88668, LONG_VALUES2, 8);
  }

  const LONG_VALUES3: seq<Symbol> := [16, 17, 18, 19, 20, 21, 22, 23]

  lemma {:induction false} LongValues3Part1()
    requires PolyFrom(0x31223f8a, LONG_VALUES3[..0]) == 0x31223f8a
    ensures PolyFrom(0x31223f8a, LONG_VALUES3[..3]) == 0x29be197
  {
    hide PolyFrom;
    StepsTo(0x31223f8a, LONG_VALUES3, 0, 16, 0x31223f8a, 0x3311a03e);
    StepsTo(0x31223f8a, LONG_VALUES3, 1, 17, 0x3311a03e, 0xe08010d);
    StepsTo(0x31223f8a, LONG_VALUES3, 2, 18, 0xe08010d, 0x29be197);
  }

  lemma {:induction false} LongValues3Part2()
    requires PolyFrom(0x31223f8a, LONG_VALUES3[..3]) == 0x29be197
    ensures PolyFrom(0x31223f8a, LONG_VALUES3[..6]) == 0x556e704
  {
    hide PolyFrom;
    StepsTo(0x31223f8a, LONG_VALUES3, 3, 19, 0x29be197, 0x28166541);
    StepsTo(0x31223f8a, LONG_VALUES3, 4, 20, 0x28166541, 0x3679d37d);
    StepsTo(0x31223f8a, LONG_VALUES3, 5, 21, 0x3679d37d, 0x556e704);
  }

  lemma {:induction false} LongValues3Part3()
    requires PolyFrom(0x31223f8a, LONG_VALUES3[..6]) == 0x556e704
    ensures PolyFrom(0x31223f8a, LONG_VALUES3[..8]) == 0x297c48e0
  {
    hide PolyFrom;
    StepsTo(0x31223f8a, LONG_VALUES3, 6, 22, 0x556e704, 0xc8c6efb);
    StepsTo(0x31223f8a, LONG_VALUES3, 7, 23, 0xc8c6efb, 0x297c48e0);
  }

  lemma {:induction false} LongValues3Polynomial()
    ensures PolyFrom(0x31223f8a, LONG_VALUES3) == 0x297c48e0
  {
    hide PolyFrom;
    Starts(0x31223f8a, LONG_VALUES3);
    LongValues3Part1();
    LongValues3Part2();
    LongValues3Part3();
    Ends(0x31223f8a, LONG_VALUES3, 8);
  }

  const LONG_VALUES4: seq<Symbol> := [24, 25, 26, 27, 28, 29, 30, 31]

  lemma {:induction false} LongValues4Part1()
    requires PolyFrom(0x297c48e0, LONG_VALUES4[..0]) == 0x297c48e0
    ensures PolyFrom(0x297c48e0, LONG_VALUES4[..3]) == 0x347f64d1
  {
    hide PolyFrom;
    StepsTo(0x297c48e0, LONG_VALUES4, 0, 24, 0x297c48e0, 0x1b3c6751);
    StepsTo(0x297c48e0, LONG_VALUES4, 1, 25, 0x1b3c6751, 0x3f0597ac);
    StepsTo(0x297c48e0, LONG_VALUES4, 2, 26, 0x3f0597ac, 0x347f64d1);
  }

  lemma {:induction false} LongValues4Part2()
    requires PolyFrom(0x297c48e0, LONG_VALUES4[..3]) == 0x347f64d1
    ensures PolyFrom(0x297c48e0, LONG_VALUES4[..6]) == 0x2e07d307
  {
    hide PolyFrom;
    StepsTo(0x297c48e0, LONG_VALUES4, 3, 27, 0x347f64d1, 0x3eea4538);
    StepsTo(0x297c48e0, LONG_VALUES4, 4, 28, 0x3eea4538, 0x9853657);
    StepsTo(0x297c48e0, LONG_VALUES4, 5, 29, 0x9853657, 0x2e07d307);
  }

  lemma {:induction false} LongValues4Part3()
    requires PolyFrom(0x297c48e0, LONG_VALUES4[..6]) == 0x2e07d307
    ensures PolyFrom(0x297c48e0, LONG_VALUES4[..8]) == 0x1a0d3656
  {
    hide PolyFrom;
    StepsTo(0x297c48e0, LONG_VALUES4, 6, 30, 0x2e07d307, 0x2975c268);
    StepsTo(0x297c48e0, LONG_VALUES4, 7, 31, 0x2975c268, 0x1a0d3656);
  }

  lemma {:induction false} LongValues4Polynomial()
    ensures PolyFrom(0x297c48e0, LONG_VALUES4) == 0x1a0d3656
  {
    hide PolyFrom;
    Starts(0x297c48e0, LONG_VALUES4);
    LongValues4Part1();
    LongValues4Part2();
    LongValues4Part3();
    Ends(0x297c48e0, LONG_VALUES4, 8);
  }

  const LONG_CHECKSUM: seq<Symbol> := [27, 0, 0, 0, 6, 14]

  lemma {:induction false} LongChecksumPart1()
    requires PolyFrom(0x1a0d3656, LONG_CHECKSUM[..0]) == 0x1a0d3656
    ensures PolyFrom(0x1a0d3656, LONG_CHECKSUM[..3]) == 0x1f82a53f
  {
    hide PolyFrom;
    StepsTo(0x1a0d3656, LONG_CHECKSUM, 0, 27, 0x1a0d3656, 0x192fb74e);
    StepsTo(0x1a0d3656, LONG_CHECKSUM, 1, 0, 0x192fb74e, 0x615c3e7);
    StepsTo(0x1a0d3656, LONG_CHECKSUM, 2, 0, 0x615c3e7, 0x1f82a53f);
  }

  lemma {:induction false} LongChecksumPart2()
    requires PolyFrom(0x1a0d3656, LONG_CHECKSUM[..3]) == 0x1f82a53f
    ensures PolyFrom(0x1a0d3656, LONG_CHECKSUM[..6]) == 0x1
  {
    hide PolyFrom;
    StepsTo(0x1a0d3656, LONG_CHECKSUM, 3, 0, 0x1f82a53f, 0xe8d5418);
    StepsTo(0x1a0d3656, LONG_CHECKSUM, 4, 6, 0xe8d5418, 0x12314323);
    StepsTo(0x1a0d3656, LONG_CHECKSUM, 5, 14, 0x12314323, 0x1);
  }

  lemma {:induction false} LongChecksumPolynomial()
    ensures PolyFrom(0x1a0d3656, LONG_CHECKSUM) == 0x1
  {
    hide PolyFrom;
    Starts(0x1a0d3656, LONG_CHECKSUM);
    LongChecksumPart1();
    LongChecksumPart2();
    Ends(0x1a0d3656, LONG_CHECKSUM, 6);
  }

  lemma {:induction false} LongPolynomial()
    ensures PolyFrom(1, LONG_PREFIX + LONG_VALUES1 + LONG_VALUES2 + LONG_VALUES3 + LONG_VALUES4 + LONG_CHECKSUM) == 1
  {
    hide PolyFrom;
    LongPrefixPolynomial();
    LongValues1Polynomial();
    LongValues2Polynomial();
    LongValues3Polynomial();
    LongValues4Polynomial();
    LongChecksumPolynomial();
    PolyAppend(1, LONG_PREFIX, LONG_VALUES1);
    PolyAppend(1, LONG_PREFIX + LONG_VALUES1, LONG_VALUES2);
    PolyAppend(1, LONG_PREFIX + LONG_VALUES1 + LONG_VALUES2, LONG_VALUES3);
    PolyAppend(1, LONG_PREFIX + LONG_VALUES1 + LONG_VALUES2 + LONG_VALUES3, LONG_VALUES4);
    PolyAppend(1, LONG_PREFIX + LONG_VALUES1 + LONG_VALUES2 + LONG_VALUES3 + LONG_VALUES4, LONG_CHECKSUM);
  }

  lemma {:induction false} LongValues1Spelled()
    ensures Chars(LONG_VALUES1) == "qpzry9x8"
  {
  }

  lemma {:induction false} LongValues2Spelled()
    ensures Chars(LONG_VALUES2) == "gf2tvdw0"
  {
  }

  lemma {:induction false} LongValues3Spelled()
    ensures Chars(LONG_VALUES3) == "s3jn54kh"
  {
  }

  lemma {:induction false} LongValues4Spelled()
    ensures Chars(LONG_VALUES4) == "ce6mua7l"
  {
  }

  lemma {:induction false} LongChecksumSpelled()
    ensures Chars(LONG_CHECKSUM) == "mqqqxw"
  {
  }

  lemma {:induction false} LongExpanded()
    ensures ExpandHRP("abcdef") == LONG_PREFIX
  {
    var e := ExpandHRP("abcdef");
    assert |e| == 13;
    assert e[0] == 3;
    assert e[1] == 3;
    assert e[2] == 3;
    assert e[3] == 3;
    assert e[4] == 3;
    assert e[5] == 3;
    assert e[6] == 0;
    assert e[7] == 1;
    assert e[8] == 2;
    assert e[9] == 3;
    assert e[10] == 4;
    assert e[11] == 5;
    assert e[12] == 6;
  }

  const LONG_VALUES: seq<Symbol> := LONG_VALUES1 + LONG_VALUES2 + LONG_VALUES3 + LONG_VALUES4

  // abcdef1qpzry9x8gf2tvdw0s3jn54khce6mua7lmqqqxw
  const LONG_STRING: string := "abcdef" + "1" + ("qpzry9x8" + "gf2tvdw0" + "s3jn54kh" + "ce6mua7l" + "mqqqxw")

  // It is valid, and stands for this prefix and these values.
  lemma {:induction false} LongIsValid(d: Decoded)
    ensures Decodable(LONG_STRING)
    ensures Spells(d.hrp, d.values, LONG_STRING) && |d.hrp| == 6 ==> d == Decoded("abcdef", LONG_VALUES)
  {
    hide CharOf, RevOf, PolyFrom, ExpandHRP, Decodable, Spells, Chars;
    LongExpanded();
    LongPolynomial();
    LongValues1Spelled();
    LongValues2Spelled();
    LongValues3Spelled();
    LongValues4Spelled();
    LongChecksumSpelled();
    CharsAppend(LONG_VALUES1, LONG_VALUES2);
    CharsAppend(LONG_VALUES1 + LONG_VALUES2, LONG_VALUES3);
    CharsAppend(LONG_VALUES1 + LONG_VALUES2 + LONG_VALUES3, LONG_VALUES4);
    CharsAppend(LONG_VALUES1 + LONG_VALUES2 + LONG_VALUES3 + LONG_VALUES4, LONG_CHECKSUM);
    var values: seq<Symbol> := LONG_VALUES;
    assert LONG_PREFIX + values + LONG_CHECKSUM == LONG_PREFIX + LONG_VALUES1 + LONG_VALUES2 + LONG_VALUES3 + LONG_VALUES4 + LONG_CHECKSUM;
    assert values + LONG_CHECKSUM == LONG_VALUES1 + LONG_VALUES2 + LONG_VALUES3 + LONG_VALUES4 + LONG_CHECKSUM;
    Accepted("abcdef", values, LONG_CHECKSUM, "qpzry9x8" + "gf2tvdw0" + "s3jn54kh" + "ce6mua7l" + "mqqqxw", d);
  }
}
