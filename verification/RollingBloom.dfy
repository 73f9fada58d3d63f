// The rolling Bloom filter (src/bloom.cpp).

module RollingBloom {

  // ---- single bits of 64-bit words ----

  predicate Bit(x: bv64, b: bv64)
    requires b < 64
  {
    (x >> b) & 1 == 1
  }

  lemma {:induction false} WriteBit(x: bv64, g: bv64, b: bv64, c: bv64)
    requires b < 64 && c < 64 && g <= 1
    ensures Bit((x & !(1 << b)) | (g << b), c) == if c == b then g == 1 else Bit(x, c)
  {
  }

  // The word with bit b written, and the word that is nothing but a bit.
  function WithBit(x: bv64, on: bool, b: bv64): bv64
    requires b < 64
  {
    (x & !(1 << b)) | ((if on then 1 else 0) << b)
  }

  lemma {:induction false} WithBitAt(x: bv64, on: bool, b: bv64, c: bv64)
    requires b < 64 && c < 64
    ensures Bit(WithBit(x, on, b), c) == if c == b then on else Bit(x, c)
  {
    hide Bit;
    WriteBit(x, if on then 1 else 0, b, c);
  }

  function Repeated(on: bool): bv64 {
    0 - (if on then 1 else 0)
  }

  // Ones but for the positions where both words agree with the two bits.
  function WipeMask(p1: bv64, p2: bv64, on1: bool, on2: bool): bv64 {
    Or(Xor(p1, Repeated(on1)), Xor(p2, Repeated(on2)))
  }

  lemma {:induction false} WipeMaskAt(p1: bv64, p2: bv64, on1: bool, on2: bool, b: bv64)
    requires b < 64
    ensures Bit(WipeMask(p1, p2, on1, on2), b) == !(Bit(p1, b) == on1 && Bit(p2, b) == on2)
  {
    hide Bit, Repeated, Or, Xor;
    RepeatedBit(on1, b);
    RepeatedBit(on2, b);
    XorWordsAt(p1, Repeated(on1), b);
    XorWordsAt(p2, Repeated(on2), b);
    OrWordsAt(Xor(p1, Repeated(on1)), Xor(p2, Repeated(on2)), b);
  }

  lemma {:induction false} RepeatedBit(on: bool, b: bv64)
    requires b < 64
    ensures Bit(Repeated(on), b) == on
  {
    AllOrNone(b);
    hide Bit;
  }

  function And(x: bv64, y: bv64): bv64 {
    x & y
  }

  function Or(x: bv64, y: bv64): bv64 {
    x | y
  }

  function Xor(x: bv64, y: bv64): bv64 {
    x ^ y
  }

  lemma {:induction false} MaskBit(x: bv64, m: bv64, b: bv64)
    requires b < 64
    ensures Bit(And(x, m), b) == (Bit(x, b) && Bit(m, b))
  {
    hide Bit;
    AndBit(x, m, b);
  }

  lemma {:induction false} AndBit(x: bv64, y: bv64, b: bv64)
    requires b < 64
    ensures Bit(x & y, b) == (Bit(x, b) && Bit(y, b))
  {
  }

  lemma {:induction false} OrWordsAt(x: bv64, y: bv64, b: bv64)
    requires b < 64
    ensures Bit(Or(x, y), b) == (Bit(x, b) || Bit(y, b))
  {
    hide Bit;
    OrBit(x, y, b);
  }

  lemma {:induction false} OrBit(x: bv64, y: bv64, b: bv64)
    requires b < 64
    ensures Bit(x | y, b) == (Bit(x, b) || Bit(y, b))
  {
  }

  lemma {:induction false} XorWordsAt(x: bv64, y: bv64, b: bv64)
    requires b < 64
    ensures Bit(Xor(x, y), b) == (Bit(x, b) != Bit(y, b))
  {
    hide Bit;
    XorBit(x, y, b);
  }

  lemma {:induction false} XorBit(x: bv64, y: bv64, b: bv64)
    requires b < 64
    ensures Bit(x ^ y, b) == (Bit(x, b) != Bit(y, b))
  {
  }

  lemma {:induction false} AllOrNone(b: bv64)
    requires b < 64
    ensures !Bit(0, b) && Bit(0 - 1, b)
  {
  }

  // ---- generations ----

  type Key = seq<nat>

  // A pair of words holds 64 positions; this one is bit b of the pair at word p.
  datatype Place = Place(p: nat, b: bv64)

  // A hash number as the code cuts it up: all but the low six bits, and those.
  datatype Cut = Cut(high: nat, low: bv64)

  // The filter's fixed data: the number of words, and the hash functions.
  datatype Setup = Setup(words: nat, hashes: nat, hash: (nat, nat, Key) -> Cut)

  ghost predicate SetupOk(u: Setup) {
    u.words > 0 && u.words % 2 == 0 && forall tweak, n, key :: u.hash(tweak, n, key).low < 64
  }

  function PlaceOf(u: Setup, tweak: nat, n: nat, key: Key): Place
    requires u.words > 0
  {
    var pos := u.hash(tweak, n, key).high % u.words;
    Place(pos - pos % 2, u.hash(tweak, n, key).low)
  }

  ghost predicate InTable(u: Setup, x: Place) {
    x.p % 2 == 0 && x.p + 1 < u.words && x.b < 64
  }

  lemma {:induction false} PlaceInTable(u: Setup, tweak: nat, n: nat, key: Key)
    requires SetupOk(u)
    ensures InTable(u, PlaceOf(u, tweak, n, key))
  {
  }

  // Two hashes share a place if and only if they have the same low bits and fall into the same pair of words.
  lemma {:induction false} SamePlace(u: Setup, tweak: nat, n: nat, key: Key, n': nat, key': Key)
    requires SetupOk(u)
    ensures PlaceOf(u, tweak, n, key) == PlaceOf(u, tweak, n', key') <==>
      var x, y := u.hash(tweak, n, key), u.hash(tweak, n', key');
      x.low == y.low && x.high % u.words / 2 == y.high % u.words / 2
  {
  }

  // 0 for a position that is not set, and otherwise the generation it is set in.
  function Gen(data: seq<bv64>, x: Place): int
    requires x.p + 1 < |data| && x.b < 64
  {
    (if Bit(data[x.p], x.b) then 1 else 0) + (if Bit(data[x.p + 1], x.b) then 2 else 0)
  }

  function Next(g: int): int {
    if g == 3 then 1 else g + 1
  }

  function Prev(g: int): int {
    if g == 1 then 3 else g - 1
  }

  // The two bits of a generation number.
  predicate Low(g: int) {
    g % 2 == 1
  }

  predicate High(g: int) {
    g >= 2
  }

  // Some key from index from on has a hash at this place.
  ghost predicate Hit(u: Setup, tweak: nat, keys: seq<Key>, from: nat, x: Place)
    requires u.words > 0
  {
    exists j, n :: from <= j < |keys| && 0 <= n < u.hashes && PlaceOf(u, tweak, n, keys[j]) == x
  }

  // What the position says of the keys: s2, s1 and s0 are where the current generation
  // and the two before it begin.
  ghost predicate PlaceOk(u: Setup, tweak: nat, keys: seq<Key>, s0: nat, s1: nat, s2: nat, data: seq<bv64>, g: int, x: Place)
    requires u.words == |data| && InTable(u, x)
  {
    && (Gen(data, x) == g <==> Hit(u, tweak, keys, s2, x))
    && (Gen(data, x) == g || Gen(data, x) == Prev(g) <==> Hit(u, tweak, keys, s1, x))
    && (Gen(data, x) != 0 <==> Hit(u, tweak, keys, s0, x))
  }

  ghost predicate PlacesOk(u: Setup, tweak: nat, keys: seq<Key>, s0: nat, s1: nat, s2: nat, data: seq<bv64>, g: int)
    requires u.words == |data|
  {
    forall x :: InTable(u, x) ==> PlaceOk(u, tweak, keys, s0, s1, s2, data, g, x)
  }

  // ---- the two ways a position changes ----

  ghost predicate Wiped(u: Setup, before: seq<bv64>, data: seq<bv64>, g: int, x: Place)
    requires u.words == |before| == |data| && InTable(u, x)
  {
    Gen(data, x) == if Gen(before, x) == g then 0 else Gen(before, x)
  }

  lemma {:induction false} NewGeneration(u: Setup, tweak: nat, keys: seq<Key>, s0: nat, s1: nat, s2: nat,
                                         before: seq<bv64>, data: seq<bv64>, g: int)
    requires u.words == |before| == |data| && 1 <= g <= 3
    requires PlacesOk(u, tweak, keys, s0, s1, s2, before, g)
    requires forall x :: InTable(u, x) ==> Wiped(u, before, data, Next(g), x)
    ensures PlacesOk(u, tweak, keys, s1, s2, |keys|, data, Next(g))
  {
    forall x | InTable(u, x)
      ensures PlaceOk(u, tweak, keys, s1, s2, |keys|, data, Next(g), x)
    {
      assert PlaceOk(u, tweak, keys, s0, s1, s2, before, g, x) && Wiped(u, before, data, Next(g), x);
      hide Bit;
      assert !Hit(u, tweak, keys, |keys|, x);
    }
  }

  lemma {:induction false} OneMoreKey(u: Setup, tweak: nat, keys: seq<Key>, s0: nat, s1: nat, s2: nat,
                                      before: seq<bv64>, data: seq<bv64>, g: int, key: Key)
    requires u.words == |before| == |data| && 1 <= g <= 3 && SetupOk(u) && s0 <= s1 <= s2 <= |keys|
    requires PlacesOk(u, tweak, keys, s0, s1, s2, before, g)
    requires forall x :: InTable(u, x) ==>
      Gen(data, x) == if KeyHits(u, tweak, key, u.hashes, x) then g else Gen(before, x)
    ensures PlacesOk(u, tweak, keys + [key], s0, s1, s2, data, g)
  {
    forall x | InTable(u, x)
      ensures PlaceOk(u, tweak, keys + [key], s0, s1, s2, data, g, x)
    {
      assert PlaceOk(u, tweak, keys, s0, s1, s2, before, g, x);
      HitMore(u, tweak, keys, s0, key, x);
      HitMore(u, tweak, keys, s1, key, x);
      HitMore(u, tweak, keys, s2, key, x);
      hide Bit, Hit, KeyHits;
    }
  }

  ghost predicate KeyHits(u: Setup, tweak: nat, key: Key, n: nat, x: Place)
    requires u.words > 0
  {
    exists m :: 0 <= m < n && PlaceOf(u, tweak, m, key) == x
  }

  lemma {:induction false} HitMore(u: Setup, tweak: nat, keys: seq<Key>, from: nat, key: Key, x: Place)
    requires u.words > 0 && from <= |keys|
    ensures Hit(u, tweak, keys + [key], from, x) <==> Hit(u, tweak, keys, from, x) || KeyHits(u, tweak, key, u.hashes, x)
  {
    var more := keys + [key];
    if Hit(u, tweak, keys, from, x) {
      var j, n :| from <= j < |keys| && 0 <= n < u.hashes && PlaceOf(u, tweak, n, keys[j]) == x;
      assert more[j] == keys[j];
    }
    if KeyHits(u, tweak, key, u.hashes, x) {
      var n :| 0 <= n < u.hashes && PlaceOf(u, tweak, n, key) == x;
      assert more[|keys|] == key && PlaceOf(u, tweak, n, more[|keys|]) == x;
    }
    if Hit(u, tweak, more, from, x) {
      var j, n :| from <= j < |more| && 0 <= n < u.hashes && PlaceOf(u, tweak, n, more[j]) == x;
      if j < |keys| {
        assert keys[j] == more[j];
      }
    }
  }

  // ---- the filter ----

  class CRollingBloomFilter {
    const setup: Setup
    const data: array<bv64>
    const nEntriesPerGeneration: nat
    var nEntriesThisGeneration: nat
    var nGeneration: int
    var nTweak: nat
    ghost var keys: seq<Key>
    ghost var s0: nat
    ghost var s1: nat
    ghost var s2: nat

    ghost predicate Valid()
      reads this, data
    {
      && SetupOk(setup) && data.Length == setup.words && 1 <= nGeneration <= 3
      && s0 <= s1 <= s2 <= |keys| && |keys| - s2 == nEntriesThisGeneration
      && s1 == Back(s2, nEntriesPerGeneration) && s0 == Back(s1, nEntriesPerGeneration)
      && PlacesOk(setup, nTweak, keys, s0, s1, s2, data[..], nGeneration)
    }

    constructor (setup: Setup, nElements: nat, tweak: nat)
      requires SetupOk(setup)
      ensures Valid() && fresh(data) && keys == [] && this.setup == setup && nEntriesPerGeneration == (nElements + 1) / 2
    {
      this.setup, nEntriesPerGeneration := setup, (nElements + 1) / 2;
      data := new bv64[setup.words];
      nGeneration := 1;
      new;
      Reset(tweak);
    }

    method Reset(tweak: nat)
      requires SetupOk(setup) && data.Length == setup.words
      modifies this, data
      ensures Valid() && keys == []
    {
      var i := 0;
      while i < data.Length
        invariant 0 <= i <= data.Length && forall j :: 0 <= j < i ==> data[j] == 0
      {
        data[i] := 0;
        i := i + 1;
      }
      nTweak, nEntriesThisGeneration, nGeneration := tweak, 0, 1;
      keys, s0, s1, s2 := [], 0, 0, 0;
      NothingSet(setup, nTweak, data[..]);
    }

    // Wipe what the generation that now begins has left from three generations ago.
    method Wipe(g: int)
      requires SetupOk(setup) && data.Length == setup.words && 1 <= g <= 3
      modifies data
      ensures forall x :: InTable(setup, x) ==> Wiped(setup, old(data[..]), data[..], g, x)
    {
      hide Bit, Gen, WipeMask, And, Wiped;
      ghost var before := data[..];
      var p := 0;
      while p < data.Length
        invariant 0 <= p <= data.Length && p % 2 == 0
        invariant forall j :: p <= j < data.Length ==> data[j] == before[j]
        invariant forall x :: InTable(setup, x) && x.p < p ==> Wiped(setup, before, data[..], g, x)
      {
        ghost var middle := data[..];
        var p1, p2 := data[p], data[p + 1];
        var mask := WipeMask(p1, p2, Low(g), High(g));
        data[p] := And(p1, mask);
        data[p + 1] := And(p2, mask);
        forall x | InTable(setup, x) && x.p < p + 2
          ensures Wiped(setup, before, data[..], g, x)
        {
          WipeStep(setup, before, middle, data[..], p, mask, g, x);
        }
        p := p + 2;
      }
    }

    method Insert(key: Key)
      requires Valid()
      modifies this, data
      ensures Valid() && keys == old(keys) + [key] && nTweak == old(nTweak)
    {
      hide Bit, Gen, PlacesOk, SetupOk;
      if nEntriesThisGeneration == nEntriesPerGeneration {
        ghost var before := data[..];
        Wipe(Next(nGeneration));
        NewGeneration(setup, nTweak, keys, s0, s1, s2, before, data[..], nGeneration);
        nEntriesThisGeneration := 0;
        nGeneration := Next(nGeneration);
        s0, s1, s2 := s1, s2, |keys|;
      }
      nEntriesThisGeneration := nEntriesThisGeneration + 1;
      ghost var before := data[..];
      SetAll(key);
      OneMoreKey(setup, nTweak, keys, s0, s1, s2, before, data[..], nGeneration, key);
      keys := keys + [key];
    }

    method SetAll(key: Key)
      requires SetupOk(setup) && data.Length == setup.words && 1 <= nGeneration <= 3
      modifies data
      ensures forall x :: InTable(setup, x) ==>
        Gen(data[..], x) == if KeyHits(setup, nTweak, key, setup.hashes, x) then nGeneration else Gen(old(data[..]), x)
    {
      hide Bit, Gen, WithBit;
      ghost var before := data[..];
      var n := 0;
      while n < setup.hashes
        invariant 0 <= n <= setup.hashes
        invariant forall x :: InTable(setup, x) ==>
          Gen(data[..], x) == if KeyHits(setup, nTweak, key, n, x) then nGeneration else Gen(before, x)
      {
        PlaceInTable(setup, nTweak, n, key);
        var y := PlaceOf(setup, nTweak, n, key);
        ghost var middle := data[..];
        data[y.p] := WithBit(data[y.p], Low(nGeneration), y.b);
        data[y.p + 1] := WithBit(data[y.p + 1], High(nGeneration), y.b);
        forall x | InTable(setup, x)
          ensures Gen(data[..], x) == if KeyHits(setup, nTweak, key, n + 1, x) then nGeneration else Gen(before, x)
        {
          SetStep(setup, middle, data[..], y, nGeneration, x);
        }
        n := n + 1;
      }
    }

    // Exact: a key is contained if each of its places is one of a key from s0 on.
    method Contains(key: Key) returns (r: bool)
      requires Valid()
      ensures r <==> forall n :: 0 <= n < setup.hashes ==> Hit(setup, nTweak, keys, s0, PlaceOf(setup, nTweak, n, key))
    {
      hide Bit, Or, Gen, Hit;
      var n := 0;
      while n < setup.hashes
        invariant 0 <= n <= setup.hashes
        invariant forall m :: 0 <= m < n ==> Hit(setup, nTweak, keys, s0, PlaceOf(setup, nTweak, m, key))
      {
        PlaceInTable(setup, nTweak, n, key);
        var x := PlaceOf(setup, nTweak, n, key);
        assert PlaceOk(setup, nTweak, keys, s0, s1, s2, data[..], nGeneration, x);
        EitherBit(data[..], x);
        if !Bit(Or(data[x.p], data[x.p + 1]), x.b) {
          return false;
        }
        n := n + 1;
      }
      r := true;
    }

    // So Contains is true for each of the last 2 * nEntriesPerGeneration +
    // nEntriesThisGeneration keys.
    lemma {:induction false} RecentKeyIsContained(j: nat)
      requires Valid() && j < |keys| && |keys| - j <= 2 * nEntriesPerGeneration + nEntriesThisGeneration
      ensures forall n :: 0 <= n < setup.hashes ==> Hit(setup, nTweak, keys, s0, PlaceOf(setup, nTweak, n, keys[j]))
    {
      hide PlacesOk;
    }

    // Hence every one of the last nElements keys that were inserted is contained.
    method ContainsRecent(key: Key, ghost nElements: nat, ghost j: nat) returns (r: bool)
      requires Valid() && nEntriesPerGeneration == (nElements + 1) / 2
      requires j < |keys| && keys[j] == key && |keys| - j <= nElements
      ensures r
    {
      hide PlacesOk, Hit;
      RecentKeyIsContained(j);
      r := Contains(key);
    }
  }

  function Back(s: nat, n: nat): nat {
    if s >= n then s - n else 0
  }

  lemma {:induction false} NothingSet(u: Setup, tweak: nat, data: seq<bv64>)
    requires u.words == |data| && u.words > 0 && forall j :: 0 <= j < |data| ==> data[j] == 0
    ensures PlacesOk(u, tweak, [], 0, 0, 0, data, 1)
  {
    forall x | InTable(u, x)
      ensures PlaceOk(u, tweak, [], 0, 0, 0, data, 1, x)
    {
      AllOrNone(x.b);
    }
  }

  lemma {:induction false} EitherBit(data: seq<bv64>, x: Place)
    requires x.p + 1 < |data| && x.b < 64
    ensures Bit(Or(data[x.p], data[x.p + 1]), x.b) <==> Gen(data, x) != 0
  {
    hide Bit, Or;
    OrWordsAt(data[x.p], data[x.p + 1], x.b);
  }

  lemma {:induction false} WipeStep(u: Setup, before: seq<bv64>, middle: seq<bv64>, data: seq<bv64>, p: nat, mask: bv64, g: int, x: Place)
    requires u.words == |before| == |middle| == |data| && 1 <= g <= 3 && InTable(u, x) && x.p < p + 2 && p % 2 == 0 && p + 1 < |data|
    requires x.p < p ==> Wiped(u, before, middle, g, x)
    requires middle[p] == before[p] && middle[p + 1] == before[p + 1]
    requires mask == WipeMask(before[p], before[p + 1], Low(g), High(g))
    requires data == middle[p := And(before[p], mask)][p + 1 := And(before[p + 1], mask)]
    ensures Wiped(u, before, data, g, x)
  {
    hide Bit, WipeMask, And;
    if x.p == p {
      WipeMaskAt(before[p], before[p + 1], Low(g), High(g), x.b);
      MaskBit(before[p], mask, x.b);
      MaskBit(before[p + 1], mask, x.b);
    } else {
      assert data[x.p] == middle[x.p] && data[x.p + 1] == middle[x.p + 1];
    }
  }

  lemma {:induction false} SetStep(u: Setup, before: seq<bv64>, data: seq<bv64>, y: Place, g: int, x: Place)
    requires u.words == |before| == |data| && InTable(u, x) && InTable(u, y) && 1 <= g <= 3
    requires data == before[y.p := WithBit(before[y.p], Low(g), y.b)][y.p + 1 := WithBit(before[y.p + 1], High(g), y.b)]
    ensures Gen(data, x) == if x == y then g else Gen(before, x)
  {
    hide Bit, WithBit;
    WithBitAt(before[y.p], Low(g), y.b, x.b);
    WithBitAt(before[y.p + 1], High(g), y.b, x.b);
  }
}
