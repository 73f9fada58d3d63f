// The block index with its skip list, and the active chain (src/chain.cpp, src/chain.h).

module BlockTree {
  import opened Basics

  // A pointer to a block index entry; 0 is the null pointer.
  type Block = nat
  const NULL: Block := 0

  // The entries: their heights, their pprev and their pskip.
  datatype Tree = Tree(height: map<Block, nat>, prev: map<Block, Block>, skip: map<Block, Block>)

  ghost predicate LinksOk(t: Tree) {
    && NULL !in t.height && t.prev.Keys == t.skip.Keys == t.height.Keys
    && forall b :: b in t.height ==>
         if t.prev[b] == NULL then t.height[b] == 0
         else t.prev[b] in t.height && t.height[b] == t.height[t.prev[b]] + 1
  }

  // The ancestor at a height, one pprev at a time.
  ghost function Ancestor(t: Tree, b: Block, h: nat): (a: Block)
    requires LinksOk(t) && b in t.height && h <= t.height[b]
    ensures a in t.height && t.height[a] == h
    decreases t.height[b]
  {
    if t.height[b] == h then b else Ancestor(t, t.prev[b], h)
  }

  // Every pskip that is set goes where GetSkipHeight says.
  ghost predicate SkipsOk(t: Tree)
    requires LinksOk(t)
  {
    forall b :: b in t.height && t.skip[b] != NULL ==>
      GetSkipHeight(t.height[b]) <= t.height[b] && t.skip[b] == Ancestor(t, b, GetSkipHeight(t.height[b]))
  }

  ghost predicate TreeOk(t: Tree) {
    LinksOk(t) && SkipsOk(t)
  }

  lemma {:induction false} AncestorOfAncestor(t: Tree, b: Block, g: nat, h: nat)
    requires LinksOk(t) && b in t.height && h <= g <= t.height[b]
    ensures Ancestor(t, Ancestor(t, b, g), h) == Ancestor(t, b, h)
    decreases t.height[b]
  {
    if g < t.height[b] {
      AncestorOfAncestor(t, t.prev[b], g, h);
    }
  }

  lemma {:induction false} AncestorStep(t: Tree, b: Block, h: nat)
    requires LinksOk(t) && b in t.height && h < t.height[b]
    ensures t.prev[Ancestor(t, b, h + 1)] == Ancestor(t, b, h)
    decreases t.height[b]
  {
    if h + 1 < t.height[b] {
      AncestorStep(t, t.prev[b], h);
    }
  }

  // ---- the skip list ----

  // Turns the lowest 1 bit into a 0.
  function InvertLowestOne(n: nat): (r: nat)
    ensures n > 0 ==> r < n
  {
    if n == 0 then 0 else if n % 2 == 1 then n - 1 else 2 * InvertLowestOne(n / 2)
  }

  lemma {:induction false} Twice(a: int, p: int, n: int)
    requires n == a * p
    ensures a * (2 * p) == 2 * n
  {
  }

  lemma {:induction false} Positive(a: nat, p: nat)
    requires a >= 1 && p >= 1
    ensures a * p >= 1
  {
    assert a * p == p + (a - 1) * p;
  }

  // With k zeros below it, the lowest 1 bit has the value 2^k and goes.
  lemma {:induction false} LowestOneGoes(m: nat, k: nat)
    ensures InvertLowestOne((2 * m + 1) * Pow2(k)) == (2 * m + 1) * Pow2(k) - Pow2(k)
  {
    if k > 0 {
      LowestOneGoes(m, k - 1);
      var n := (2 * m + 1) * Pow2(k - 1);
      assert Pow2(k) == 2 * Pow2(k - 1);
      hide Pow2, InvertLowestOne;
      Twice(2 * m + 1, Pow2(k - 1), n);
      Positive(2 * m + 1, Pow2(k - 1));
      ClearedDouble(n);
    }
  }

  function GetSkipHeight(height: int): (r: int)
    ensures 0 <= r && (height >= 1 ==> r < height)
  {
    if height < 2 then 0
    else if height % 2 == 1 then InvertLowestOne(InvertLowestOne(height - 1)) + 1
    else InvertLowestOne(height)
  }

  // ---- how many steps a walk takes ----

  // The height after one step of the walk from h down to t, with every pskip in place.
  function NextHeight(h: nat, t: nat): (r: nat)
    requires t < h
    ensures t <= r < h
  {
    var skip, prevSkip := GetSkipHeight(h), GetSkipHeight(h - 1);
    if skip == t || (skip > t && !(prevSkip < skip - 2 && prevSkip >= t)) then skip else h - 1
  }

  ghost function Steps(h: nat, t: nat): nat
    requires t <= h
    decreases h
  {
    if h == t then 0 else 1 + Steps(NextHeight(h, t), t)
  }

  ghost predicate Odd(x: nat) {
    x % 2 == 1
  }

  ghost predicate Multiple(x: nat, b: nat) {
    x % Pow2(b) == 0
  }

  lemma {:induction false} MultipleOfDouble(x: nat, b: nat)
    ensures Multiple(2 * x, b + 1) <==> Multiple(x, b)
  {
    var p := Pow2(b);
    assert Pow2(b + 1) == 2 * p;
    hide Pow2;
    var q, r := x / p, x % p;
    DivBack(x, p);
    assert 2 * x == q * (2 * p) + 2 * r;
    DivUnique(2 * x, q, 2 * r, 2 * p);
  }

  lemma {:induction false} DivBack(x: int, p: int)
    requires p > 0
    ensures x == x / p * p + x % p
  {
  }

  lemma {:induction false} Halved(x: nat) returns (y: nat)
    ensures if Odd(x) then x == 2 * y + 1 else x == 2 * y
  {
    y := x / 2;
  }

  lemma {:induction false} Parity(y: nat)
    ensures !Odd(2 * y) && Odd(2 * y + 1)
  {
  }

  lemma {:induction false} AnyMultiple(x: nat)
    ensures Multiple(x, 0)
  {
  }

  lemma {:induction false} MultipleIsEven(x: nat, b: nat)
    requires Multiple(x, b) && b >= 1
    ensures !Odd(x)
  {
    var p := Pow2(b - 1);
    assert Pow2(b) == 2 * p;
    hide Pow2, Odd;
    var q := x / (2 * p);
    DivBack(x, 2 * p);
    assert x == 2 * (q * p);
    Parity(q * p);
  }

  lemma {:induction false} EvenIsMultiple(y: nat)
    ensures Multiple(2 * y, 1)
  {
    hide Multiple;
    AnyMultiple(y);
    MultipleOfDouble(y, 0);
  }

  lemma {:induction false} MultipleOfLess(x: nat, b: nat, c: nat)
    requires Multiple(x, b) && c <= b
    ensures Multiple(x, c)
    decreases b
  {
    hide Multiple, Odd;
    if c == 0 {
      AnyMultiple(x);
    } else if c < b {
      MultipleIsEven(x, b);
      var y := Halved(x);
      MultipleOfDouble(y, b - 1);
      MultipleOfLess(y, b - 1, c - 1);
      MultipleOfDouble(y, c - 1);
    }
  }

  // Between two neighbouring multiples there is none.
  lemma {:induction false} NoMultipleBetween(x: nat, p: nat, d: nat)
    requires Multiple(p, d) && p < x < p + Pow2(d)
    ensures !Multiple(x, d)
  {
    hide Pow2;
    DivBack(p, Pow2(d));
    DivUnique(x, p / Pow2(d), x - p, Pow2(d));
  }

  lemma {:induction false} NextMultiple(p: nat, d: nat)
    requires Multiple(p, d)
    ensures Multiple(p + Pow2(d), d)
  {
    hide Pow2;
    var q := Pow2(d);
    DivBack(p, q);
    assert p + q == (p / q + 1) * q + 0;
    DivUnique(p + q, p / q + 1, 0, q);
  }

  lemma {:induction false} DoublePow2(d: nat)
    requires d >= 1
    ensures Pow2(d) == Pow2(d - 1) + Pow2(d - 1)
  {
  }

  lemma {:induction false} HalfWay(p: nat, d: nat)
    requires d >= 1 && Multiple(p, d)
    ensures Multiple(p, d - 1) && Multiple(p + Pow2(d - 1), d - 1) && Pow2(d) == Pow2(d - 1) + Pow2(d - 1)
    ensures d >= 2 ==> Pow2(d - 1) >= 2 && !Odd(p + Pow2(d - 1))
  {
    hide Multiple, Pow2, Odd;
    DoublePow2(d);
    MultipleOfLess(p, d, d - 1);
    NextMultiple(p, d - 1);
    if d >= 2 {
      DoublePow2(d - 1);
      MultipleIsEven(p + Pow2(d - 1), d - 1);
    }
  }

  lemma {:induction false} ClearedDouble(y: nat)
    ensures InvertLowestOne(2 * y) == 2 * InvertLowestOne(y)
  {
    DivUnique(2 * y, y, 0, 2);
  }

  lemma {:induction false} ClearedOdd(y: nat)
    ensures InvertLowestOne(2 * y + 1) == 2 * y
  {
    DivUnique(2 * y + 1, y, 1, 2);
  }

  lemma {:induction false} ClearedLess(x: nat)
    ensures x > 0 ==> InvertLowestOne(x) < x
  {
  }

  // Clearing the lowest one leaves a multiple of twice as much.
  lemma {:induction false} ClearedMultiple(x: nat, b: nat)
    requires Multiple(x, b)
    ensures Multiple(InvertLowestOne(x), b + 1)
    decreases b
  {
    hide InvertLowestOne, Multiple, Odd;
    var y := Halved(x);
    if Odd(x) {
      if b >= 1 {
        MultipleIsEven(x, b);
      }
      ClearedOdd(y);
      EvenIsMultiple(y);
    } else {
      ClearedDouble(y);
      if b >= 1 {
        MultipleOfDouble(y, b - 1);
        ClearedMultiple(y, b - 1);
      } else {
        AnyMultiple(InvertLowestOne(y));
      }
      MultipleOfDouble(InvertLowestOne(y), b);
    }
  }

  // It does not go below a multiple of a higher power that is close.
  lemma {:induction false} ClearedStays(x: nat, p: nat, d: nat)
    requires Multiple(p, d) && p < x < p + Pow2(d)
    ensures InvertLowestOne(x) >= p
    decreases d
  {
    assert Pow2(0) == 1;
    hide InvertLowestOne, Multiple, Odd, Pow2;
    var y := Halved(x);
    if Odd(x) {
      ClearedOdd(y);
    } else {
      MultipleIsEven(p, d);
      var q := Halved(p);
      MultipleOfDouble(q, d - 1);
      DoublePow2(d);
      ClearedStays(y, q, d - 1);
      ClearedDouble(y);
    }
  }

  lemma {:induction false} ClearedHalfWay(p: nat, d: nat)
    requires d >= 1 && Multiple(p, d)
    ensures InvertLowestOne(p + Pow2(d - 1)) == p
    decreases d
  {
    assert Pow2(0) == 1;
    hide InvertLowestOne, Multiple, Odd, Pow2;
    MultipleIsEven(p, d);
    var q := Halved(p);
    if d == 1 {
      ClearedOdd(q);
    } else {
      MultipleOfDouble(q, d - 1);
      DoublePow2(d - 1);
      ClearedHalfWay(q, d - 1);
      ClearedDouble(q + Pow2(d - 2));
    }
  }

  // ---- what a step does ----

  lemma {:induction false} Unroll(h: nat, t: nat)
    requires t < h
    ensures Steps(h, t) == 1 + Steps(NextHeight(h, t), t)
  {
    hide NextHeight;
  }

  lemma {:induction false} EvenSkip(e: nat, t: nat)
    requires e >= 2 && !Odd(e) && t < e
    ensures GetSkipHeight(e) == InvertLowestOne(e)
    ensures InvertLowestOne(e) == t ==> NextHeight(e, t) == t
    ensures InvertLowestOne(e) < t ==> NextHeight(e, t) == e - 1
    ensures InvertLowestOne(e) > t && NextHeight(e, t) != InvertLowestOne(e) ==>
      NextHeight(e, t) == e - 1 && t <= GetSkipHeight(e - 1) < InvertLowestOne(e) - 2
  {
    hide InvertLowestOne;
  }

  lemma {:induction false} OddSkipHeight(h: nat)
    requires Odd(h) && h >= 3
    ensures GetSkipHeight(h) == InvertLowestOne(InvertLowestOne(h - 1)) + 1
  {
    hide InvertLowestOne;
  }

  // The skip of an odd height clears two ones.
  lemma {:induction false} OddSkip(h: nat, b: nat)
    requires Odd(h) && h >= 3 && Multiple(h - 1, b)
    ensures 1 <= GetSkipHeight(h) < h && Odd(GetSkipHeight(h)) && Multiple(GetSkipHeight(h) - 1, b + 2)
  {
    hide InvertLowestOne, Multiple, Odd, GetSkipHeight;
    OddSkipHeight(h);
    var c := InvertLowestOne(h - 1);
    ClearedMultiple(h - 1, b);
    ClearedMultiple(c, b + 1);
    MultipleIsEven(InvertLowestOne(c), b + 2);
    var y := Halved(InvertLowestOne(c));
    Parity(y);
    ClearedLess(h - 1);
    ClearedLess(c);
  }

  // It is taken whenever it does not go too far.
  lemma {:induction false} OddSkips(h: nat, t: nat)
    requires Odd(h) && h >= 3 && t < h
    ensures NextHeight(h, t) == if GetSkipHeight(h) >= t then GetSkipHeight(h) else h - 1
  {
    var c := InvertLowestOne(h - 1);
    OddSkipHeight(h);
    ClearedLess(c);
    assert GetSkipHeight(h - 1) == c;
    hide InvertLowestOne, GetSkipHeight;
    assert c == 0 ==> InvertLowestOne(c) == 0 by { ClearedDouble(0); }
  }

  // Where the skip of pprev is better it ends on a multiple of four times as much, plus one.
  lemma {:induction false} BetterSkip(e: nat, b: nat)
    requires e >= 2 && b >= 1 && Multiple(e, b) && GetSkipHeight(e - 1) < InvertLowestOne(e) - 2
    ensures e >= 4 && Odd(e - 1) && Odd(GetSkipHeight(e - 1))
    ensures GetSkipHeight(e - 1) >= 1 && Multiple(GetSkipHeight(e - 1) - 1, b + 2)
  {
    hide Multiple, InvertLowestOne, Odd, GetSkipHeight;
    MultipleIsEven(e, b);
    var y := Halved(e);
    ClearedLess(e);
    assert e >= 4;
    Parity(y - 1);
    AnyMultiple(e - 2);
    OddSkip(e - 1, 0);
    OddSkipHeight(e - 1);
    var z := Halved(y);
    if Odd(y) {
      BetterFromTwo(z, b);
    } else {
      var w := Halved(z);
      if Odd(z) {
        BetterFromFour(w, b);
      } else {
        NotFromEight(w);
      }
    }
  }

  lemma {:induction false} BetterFromTwo(z: nat, b: nat)
    requires Multiple(4 * z + 2, b)
    ensures Multiple(InvertLowestOne(InvertLowestOne(4 * z)), b + 2)
  {
    hide Multiple, InvertLowestOne, Odd;
    if b >= 2 {
      MultipleOfLess(4 * z + 2, b, 2);
      MultipleOfDouble(2 * z + 1, 1);
      MultipleIsEven(2 * z + 1, 1);
      Parity(z);
    }
    EvenIsMultiple(z);
    MultipleOfDouble(2 * z, 1);
    var c := InvertLowestOne(4 * z);
    ClearedMultiple(4 * z, 2);
    ClearedMultiple(c, 3);
    MultipleOfLess(InvertLowestOne(c), 4, b + 2);
  }

  lemma {:induction false} BetterFromFour(w: nat, b: nat)
    requires Multiple(8 * w + 4, b)
    ensures Multiple(InvertLowestOne(InvertLowestOne(8 * w + 2)), b + 2)
  {
    hide Multiple, InvertLowestOne, Odd;
    if b >= 3 {
      MultipleOfLess(8 * w + 4, b, 3);
      MultipleOfDouble(4 * w + 2, 2);
      MultipleOfDouble(2 * w + 1, 1);
      MultipleIsEven(2 * w + 1, 1);
      Parity(w);
    }
    ClearedOdd(2 * w);
    ClearedDouble(4 * w + 1);
    EvenIsMultiple(w);
    MultipleOfDouble(2 * w, 1);
    MultipleOfDouble(4 * w, 2);
    ClearedMultiple(8 * w, 3);
    MultipleOfLess(InvertLowestOne(8 * w), 4, b + 2);
  }

  lemma {:induction false} NotFromEight(w: nat)
    requires w > 0
    ensures InvertLowestOne(InvertLowestOne(8 * w - 2)) == 8 * w - 8 && InvertLowestOne(8 * w) <= 8 * w - 8
  {
    hide InvertLowestOne;
    ClearedOdd(2 * w - 1);
    ClearedDouble(4 * w - 1);
    ClearedOdd(w - 1);
    ClearedDouble(2 * w - 1);
    ClearedDouble(4 * w - 2);
    ClearedLess(w);
    ClearedDouble(w);
    ClearedDouble(2 * w);
    ClearedDouble(4 * w);
  }

  // The sum of the first d odd numbers.
  ghost function Bound(d: nat): nat {
    if d == 0 then 0 else Bound(d - 1) + 2 * d - 1
  }

  lemma {:induction false} BoundIsSquare(d: nat)
    ensures Bound(d) == d * d
  {
    if d > 0 {
      BoundIsSquare(d - 1);
      assert d * d == (d - 1) * (d - 1) + 2 * d - 1;
    }
  }

  lemma {:induction false} NextBound(d: nat)
    requires d >= 1
    ensures Bound(d) == Bound(d - 1) + 2 * d - 1
  {
  }

  // A walk within a block of 2^d heights takes at most d * d steps.
  lemma {:induction false} StepsInBlock(h: nat, t: nat, p: nat, d: nat)
    requires Multiple(p, d) && p <= t <= h < p + Pow2(d)
    ensures Steps(h, t) <= Bound(d)
    decreases h, d, 1
  {
    hide Pow2, Multiple, Steps, Odd, Bound;
    if d <= 1 {
      StepsInPair(h, t, p, d);
    } else {
      HalfWay(p, d);
      NextBound(d);
      var middle := p + Pow2(d - 1);
      var y := Halved(h);
      EvenIsMultiple(y);
      if h < middle {
        StepsInBlock(h, t, p, d - 1);
      } else if t >= middle {
        StepsInBlock(h, t, middle, d - 1);
      } else if Odd(h) {
        StepsFromOdd(h, t, p, d, 1);
      } else {
        StepsFromEven(h, t, p, d, 1);
      }
    }
  }

  lemma {:induction false} StepsInPair(h: nat, t: nat, p: nat, d: nat)
    requires d <= 1 && p <= t <= h < p + Pow2(d)
    ensures Steps(h, t) <= Bound(d)
  {
    assert Pow2(0) == 1 && Pow2(1) == 2 && Bound(1) == 1;
    hide Steps, Pow2, Bound, NextHeight;
    NoSteps(t);
    if h > t {
      Unroll(h, t);
    }
  }

  lemma {:induction false} NoSteps(h: nat)
    ensures Steps(h, h) == 0
  {
  }

  // Each jump doubles what the height is a multiple of, until the middle of the block.
  lemma {:induction false} StepsFromEven(e: nat, t: nat, p: nat, d: nat, b: nat)
    requires d >= 2 && 1 <= b <= d - 1 && Multiple(p, d) && Multiple(e, b)
    requires p <= t < p + Pow2(d - 1) <= e < p + Pow2(d)
    ensures Steps(e, t) <= 2 * (d - 1 - b) + 1 + Bound(d - 1)
    decreases e, d, 0
  {
    hide Pow2, Multiple, Steps, NextHeight, GetSkipHeight, InvertLowestOne, Odd, Bound;
    HalfWay(p, d);
    MultipleIsEven(e, b);
    var middle := p + Pow2(d - 1);
    Unroll(e, t);
    EvenSkip(e, t);
    if e == middle {
      ClearedHalfWay(p, d);
      NextInHalf(e, t, p, d - 1);
      StepsInBlock(NextHeight(e, t), t, p, d - 1);
    } else {
      ClearedStays(e, middle, d - 1);
      ClearedMultiple(e, b);
      ClearedLess(e);
      if b == d - 1 {
        NoMultipleBetween(e, middle, d - 1);
      }
      var s := InvertLowestOne(e);
      if NextHeight(e, t) == s {
        StepsFromEven(s, t, p, d, b + 1);
      } else {
        BetterSkip(e, b);
        OddSkips(e - 1, t);
        Unroll(e - 1, t);
        StepsFromBetter(GetSkipHeight(e - 1), t, p, d, b);
      }
    }
  }

  lemma {:induction false} NextInHalf(e: nat, t: nat, p: nat, d: nat)
    requires e == p + Pow2(d) && p <= t < e
    ensures p <= t <= NextHeight(e, t) < p + Pow2(d)
  {
    hide Pow2;
  }

  lemma {:induction false} StepsFromBetter(q: nat, t: nat, p: nat, d: nat, b: nat)
    requires d >= 2 && 1 <= b <= d - 2 && Multiple(p, d) && q >= 1 && Odd(q) && Multiple(q - 1, b + 2)
    requires p <= t < p + Pow2(d - 1) && t <= q < p + Pow2(d)
    ensures Steps(q, t) <= 2 * (d - 1 - b) - 1 + Bound(d - 1)
    decreases q, d, 1
  {
    hide Pow2, Multiple, Steps, Odd, Bound;
    HalfWay(p, d);
    if q < p + Pow2(d - 1) {
      StepsInBlock(q, t, p, d - 1);
    } else {
      NotTooFar(q, p, d, b + 2);
      StepsFromOdd(q, t, p, d, b + 2);
    }
  }

  // Heights behind the middle are not multiples of more than half a block.
  lemma {:induction false} NotTooFar(q: nat, p: nat, d: nat, c: nat)
    requires d >= 2 && Multiple(p, d) && q >= 1 && Odd(q) && Multiple(q - 1, c) && c >= 1
    requires p + Pow2(d - 1) <= q < p + Pow2(d)
    ensures q > p + Pow2(d - 1) && c <= d - 1
  {
    hide Pow2, Multiple, Odd;
    HalfWay(p, d);
    if c >= d {
      MultipleOfLess(q - 1, c, d);
      NoMultipleBetween(q - 1, p, d);
    }
  }

  lemma {:induction false} StepsFromOdd(h: nat, t: nat, p: nat, d: nat, b: nat)
    requires d >= 2 && 1 <= b <= d - 1 && Multiple(p, d) && h >= 1 && Odd(h) && Multiple(h - 1, b)
    requires p <= t < p + Pow2(d - 1) <= h < p + Pow2(d)
    ensures Steps(h, t) <= 2 * (d - 1 - b) + 2 + Bound(d - 1)
    decreases h, d, 0
  {
    hide Pow2, Multiple, Steps, NextHeight, GetSkipHeight, InvertLowestOne, Odd, Bound;
    HalfWay(p, d);
    var middle, q := p + Pow2(d - 1), GetSkipHeight(h);
    assert h > middle && h >= 3;
    OddSkip(h, b);
    OddSkips(h, t);
    Unroll(h, t);
    if q < t {
      StepsFromEven(h - 1, t, p, d, b);
    } else if q < middle {
      StepsInBlock(q, t, p, d - 1);
    } else {
      NotTooFar(q, p, d, b + 2);
      StepsFromOdd(q, t, p, d, b + 2);
    }
  }

  // From any height below 2^d it takes at most d * d steps to any other.
  lemma {:induction false} WalkIsShort(h: nat, t: nat, d: nat)
    requires t <= h < Pow2(d)
    ensures Steps(h, t) <= d * d
  {
    hide Pow2, Steps, Bound;
    StepsInBlock(h, t, 0, d);
    BoundIsSquare(d);
  }

  // Every entry but a root has its pskip.
  ghost predicate SkipsSet(t: Tree)
    requires LinksOk(t)
  {
    forall b :: b in t.height && t.prev[b] != NULL ==> t.skip[b] != NULL
  }

  // One step of the walk, on heights.
  lemma {:induction false} OneStep(h: nat, t: nat, skips: bool)
    requires t < h
    requires skips == (GetSkipHeight(h) == t ||
                       (GetSkipHeight(h) > t && !(GetSkipHeight(h - 1) < GetSkipHeight(h) - 2 && GetSkipHeight(h - 1) >= t)))
    ensures skips ==> GetSkipHeight(h) >= t && Steps(h, t) == 1 + Steps(GetSkipHeight(h), t)
    ensures !skips ==> Steps(h, t) == 1 + Steps(h - 1, t)
  {
    hide GetSkipHeight;
    Unroll(h, t);
  }

  // The walk over skips gives what the walk over pprev gives, in a number of steps that is
  // quadratic in the length of the height in bits.
  method GetAncestor(t: Tree, b: Block, height: int) returns (a: Block, ghost steps: nat)
    requires TreeOk(t) && b in t.height
    ensures a == if height > t.height[b] || height < 0 then NULL else Ancestor(t, b, height)
    ensures SkipsSet(t) ==> forall d: nat :: t.height[b] < Pow2(d) ==> steps <= d * d
  {
    hide Steps, Pow2, GetSkipHeight, SkipsOk, LinksOk, Ancestor, Counted;
    steps := 0;
    if height > t.height[b] || height < 0 {
      NoneCounted();
      return NULL, steps;
    }
    var heightWalk := t.height[b];
    a := b;
    CountingStarts(t, b, height);
    while heightWalk > height
      invariant a in t.height && t.height[a] == heightWalk >= height
      invariant Ancestor(t, a, height) == Ancestor(t, b, height)
      invariant Counted(t, b, height, heightWalk, steps)
      decreases heightWalk
    {
      var heightSkip := GetSkipHeight(heightWalk);
      var heightSkipPrev := GetSkipHeight(heightWalk - 1);
      var skips := heightSkip == height ||
                   (heightSkip > height && !(heightSkipPrev < heightSkip - 2 && heightSkipPrev >= height));
      AncestorOfPrev(t, a, height);
      CountStep(t, b, a, height, steps, skips);
      steps := steps + 1;
      if t.skip[a] != NULL && skips {
        AncestorOfSkip(t, a, height);
        a := t.skip[a];
        heightWalk := heightSkip;
      } else {
        a := t.prev[a];
        heightWalk := heightWalk - 1;
      }
    }
    AncestorSelf(t, a);
    CountingEnds(t, b, height, steps);
  }

  // With every pskip in place, what was counted and what is left are the whole walk.
  ghost predicate Counted(t: Tree, b: Block, height: nat, walk: nat, steps: nat)
    requires LinksOk(t) && b in t.height
  {
    height <= walk && height <= t.height[b] && (SkipsSet(t) ==> steps + Steps(walk, height) == Steps(t.height[b], height))
  }

  lemma {:induction false} NoneCounted()
    ensures forall d: nat :: 0 <= d * d
  {
  }

  lemma {:induction false} CountingStarts(t: Tree, b: Block, height: nat)
    requires LinksOk(t) && b in t.height && height <= t.height[b]
    ensures Counted(t, b, height, t.height[b], 0)
  {
    hide Steps, SkipsSet;
  }

  lemma {:induction false} CountStep(t: Tree, b: Block, a: Block, height: nat, steps: nat, skips: bool)
    requires LinksOk(t) && b in t.height && a in t.height && t.height[a] > height
    requires Counted(t, b, height, t.height[a], steps)
    requires var h := t.height[a];
             skips == (GetSkipHeight(h) == height ||
                       (GetSkipHeight(h) > height && !(GetSkipHeight(h - 1) < GetSkipHeight(h) - 2 && GetSkipHeight(h - 1) >= height)))
    ensures t.skip[a] != NULL && skips ==> Counted(t, b, height, GetSkipHeight(t.height[a]), steps + 1)
    ensures t.skip[a] == NULL || !skips ==> Counted(t, b, height, t.height[a] - 1, steps + 1)
  {
    hide Steps, GetSkipHeight, SkipsSet;
    OneStep(t.height[a], height, skips);
    HasSkip(t, a);
  }

  lemma {:induction false} CountingEnds(t: Tree, b: Block, height: nat, steps: nat)
    requires LinksOk(t) && b in t.height && Counted(t, b, height, height, steps)
    ensures SkipsSet(t) ==> forall d: nat :: t.height[b] < Pow2(d) ==> steps <= d * d
  {
    hide Steps, SkipsSet, Pow2;
    NoSteps(height);
    forall d: nat | SkipsSet(t) && t.height[b] < Pow2(d)
      ensures steps <= d * d
    {
      WalkIsShort(t.height[b], height, d);
    }
  }

  lemma {:induction false} AncestorOfSkip(t: Tree, b: Block, h: nat)
    requires TreeOk(t) && b in t.height && t.skip[b] != NULL && h <= GetSkipHeight(t.height[b])
    ensures t.skip[b] in t.height && t.height[t.skip[b]] == GetSkipHeight(t.height[b])
    ensures h <= t.height[b] && Ancestor(t, t.skip[b], h) == Ancestor(t, b, h)
  {
    hide GetSkipHeight, Ancestor;
    AncestorOfAncestor(t, b, GetSkipHeight(t.height[b]), h);
  }

  lemma {:induction false} AncestorSelf(t: Tree, b: Block)
    requires LinksOk(t) && b in t.height
    ensures Ancestor(t, b, t.height[b]) == b
  {
  }

  lemma {:induction false} AncestorOfPrev(t: Tree, b: Block, h: nat)
    requires LinksOk(t) && b in t.height && h < t.height[b]
    ensures b in t.prev && b in t.skip && t.prev[b] in t.height && t.height[t.prev[b]] == t.height[b] - 1
    ensures Ancestor(t, t.prev[b], h) == Ancestor(t, b, h)
  {
  }

  lemma {:induction false} HasSkip(t: Tree, b: Block)
    requires LinksOk(t) && b in t.height && t.height[b] > 0
    ensures t.prev[b] != NULL && (SkipsSet(t) ==> t.skip[b] != NULL)
  {
  }

  // The index itself grows by entries whose pskip is built from what is there.
  class BlockIndex {
    var tree: Tree

    constructor ()
      ensures TreeOk(tree) && tree.height == map[]
    {
      tree := Tree(map[], map[], map[]);
    }

    // A new entry on top of another (or of nothing), with BuildSkip.
    method AddEntry(b: Block, prev: Block)
      requires TreeOk(tree) && b != NULL && b !in tree.height && (prev == NULL || prev in tree.height)
      modifies this
      ensures TreeOk(tree)
      ensures tree.prev == old(tree).prev[b := prev]
      ensures tree.height == old(tree).height[b := if prev == NULL then 0 else old(tree).height[prev] + 1]
      ensures forall x :: x in old(tree).height ==> tree.skip[x] == old(tree).skip[x]
      ensures prev != NULL ==> tree.skip[b] == Ancestor(tree, b, GetSkipHeight(tree.height[b]))
      ensures SkipsSet(old(tree)) ==> SkipsSet(tree)
    {
      var h := if prev == NULL then 0 else tree.height[prev] + 1;
      var skip := NULL;
      if prev != NULL {
        var a, steps := GetAncestor(tree, prev, GetSkipHeight(h));
        skip := a;
      }
      ghost var before := tree;
      tree := Tree(tree.height[b := h], tree.prev[b := prev], tree.skip[b := skip]);
      Grown(before, tree, b, prev, h, skip);
    }
  }

  // t' has all that t has.
  ghost predicate Extends(t: Tree, t': Tree) {
    && LinksOk(t) && LinksOk(t')
    && forall x :: x in t.height ==> x in t'.height && t'.height[x] == t.height[x] && t'.prev[x] == t.prev[x]
  }

  lemma {:induction false} AncestorKept(t: Tree, t': Tree, x: Block, h: nat)
    requires Extends(t, t') && x in t.height && h <= t.height[x]
    ensures x in t'.height && h <= t'.height[x] && Ancestor(t', x, h) == Ancestor(t, x, h)
    decreases t.height[x]
  {
    if h < t.height[x] {
      AncestorKept(t, t', t.prev[x], h);
    }
  }

  lemma {:induction false} Grown(t: Tree, t': Tree, b: Block, prev: Block, h: nat, skip: Block)
    requires TreeOk(t) && b != NULL && b !in t.height && (prev == NULL || prev in t.height)
    requires t' == Tree(t.height[b := h], t.prev[b := prev], t.skip[b := skip])
    requires h == if prev == NULL then 0 else t.height[prev] + 1
    requires skip == if prev == NULL then NULL else Ancestor(t, prev, GetSkipHeight(h))
    ensures TreeOk(t')
    ensures prev != NULL ==> t'.skip[b] == Ancestor(t', b, GetSkipHeight(h))
  {
    hide GetSkipHeight, Ancestor, SkipsOk;
    assert Extends(t, t');
    if prev != NULL {
      AncestorKept(t, t', prev, GetSkipHeight(h));
      AncestorOfPrev(t', b, GetSkipHeight(h));
    }
    hide Extends;
    GrownSkips(t, t', b);
  }

  lemma {:induction false} GrownSkips(t: Tree, t': Tree, b: Block)
    requires TreeOk(t) && Extends(t, t') && t'.height.Keys == t.height.Keys + {b}
    requires forall x :: x in t.height ==> t'.skip[x] == t.skip[x]
    requires t'.skip[b] == NULL || (GetSkipHeight(t'.height[b]) <= t'.height[b] && t'.skip[b] == Ancestor(t', b, GetSkipHeight(t'.height[b])))
    ensures SkipsOk(t')
  {
    hide GetSkipHeight, Ancestor;
    forall x | x in t'.height && t'.skip[x] != NULL
      ensures GetSkipHeight(t'.height[x]) <= t'.height[x] && t'.skip[x] == Ancestor(t', x, GetSkipHeight(t'.height[x]))
    {
      if x != b {
        AncestorKept(t, t', x, GetSkipHeight(t.height[x]));
      }
    }
  }

  // ---- common ancestors ----

  // r is the highest block that two chains of ancestors share, if there is one.
  ghost predicate HighestCommon(t: Tree, a: Block, b: Block, r: Block)
    requires LinksOk(t) && a in t.height && b in t.height
  {
    && (r != NULL ==> r in t.height && t.height[r] <= t.height[a] && t.height[r] <= t.height[b]
                      && r == Ancestor(t, a, t.height[r]) == Ancestor(t, b, t.height[r]))
    && Apart(t, a, b, if r == NULL then 0 else t.height[r] + 1)
  }

  // The ancestors of a and b at heights from k up differ.
  ghost predicate Apart(t: Tree, a: Block, b: Block, k: nat)
    requires LinksOk(t) && a in t.height && b in t.height
  {
    forall h :: k <= h <= t.height[a] && h <= t.height[b] ==> Ancestor(t, a, h) != Ancestor(t, b, h)
  }

  // Two ancestors at one level, below which the chains may still meet.
  ghost predicate Level(t: Tree, a: Block, b: Block, pa: Block, pb: Block)
    requires LinksOk(t) && a in t.height && b in t.height
  {
    && (pa == NULL <==> pb == NULL)
    && (pa != NULL ==>
          && pa in t.height && pb in t.height && t.height[pa] == t.height[pb] <= t.height[a] && t.height[pb] <= t.height[b]
          && pa == Ancestor(t, a, t.height[pa]) && pb == Ancestor(t, b, t.height[pb]))
    && Apart(t, a, b, if pa == NULL then 0 else t.height[pa] + 1)
  }

  lemma {:induction false} ApartHere(t: Tree, a: Block, b: Block, k: nat)
    requires LinksOk(t) && a in t.height && b in t.height && Apart(t, a, b, k + 1)
    requires k <= t.height[a] && k <= t.height[b] && Ancestor(t, a, k) != Ancestor(t, b, k)
    ensures Apart(t, a, b, k)
  {
    hide Ancestor, LinksOk;
  }

  lemma {:induction false} LevelDown(t: Tree, a: Block, b: Block, pa: Block, pb: Block)
    requires LinksOk(t) && a in t.height && b in t.height && Level(t, a, b, pa, pb) && pa != pb && pa != NULL
    ensures Level(t, a, b, t.prev[pa], t.prev[pb])
  {
    hide Ancestor, Apart, LinksOk;
    ApartHere(t, a, b, t.height[pa]);
    PrevBelow(t, pa);
    PrevBelow(t, pb);
    if t.height[pa] > 0 {
      AncestorStep(t, a, t.height[pa] - 1);
      AncestorStep(t, b, t.height[pa] - 1);
    }
  }

  lemma {:induction false} PrevBelow(t: Tree, p: Block)
    requires LinksOk(t) && p in t.height
    ensures p in t.prev && (t.prev[p] == NULL <==> t.height[p] == 0)
    ensures t.prev[p] != NULL ==> t.prev[p] in t.height && t.height[t.prev[p]] == t.height[p] - 1
  {
  }

  lemma {:induction false} LevelStart(t: Tree, a: Block, b: Block, pa: Block, pb: Block)
    requires LinksOk(t) && a in t.height && b in t.height
    requires var m := if t.height[a] < t.height[b] then t.height[a] else t.height[b];
             pa == Ancestor(t, a, m) && pb == Ancestor(t, b, m)
    ensures Level(t, a, b, pa, pb)
  {
  }

  method LastCommonAncestor(t: Tree, a: Block, b: Block) returns (r: Block)
    requires TreeOk(t) && a in t.height && b in t.height
    ensures HighestCommon(t, a, b, r)
  {
    var pa, pb := a, b;
    if t.height[a] > t.height[b] {
      ghost var steps;
      pa, steps := GetAncestor(t, a, t.height[b]);
    } else if t.height[b] > t.height[a] {
      ghost var steps;
      pb, steps := GetAncestor(t, b, t.height[a]);
    }
    LevelStart(t, a, b, pa, pb);
    hide SkipsOk, Ancestor;
    while pa != pb && pa != NULL && pb != NULL
      invariant Level(t, a, b, pa, pb)
      decreases if pa == NULL then 0 else t.height[pa] + 1
    {
      LevelDown(t, a, b, pa, pb);
      pa, pb := t.prev[pa], t.prev[pb];
    }
    assert pa == pb;
    return pa;
  }
}

module ActiveChain {
  import opened Basics
  import opened BlockTree

  // The blocks from the root up to b.
  ghost function Path(t: Tree, b: Block): seq<Block>
    requires LinksOk(t) && b in t.height
  {
    seq(t.height[b] + 1, h requires 0 <= h <= t.height[b] => Ancestor(t, b, h))
  }

  // A chain stays one when the index grows.
  lemma {:induction false} ChainSurvives(t: Tree, t': Tree, chain: seq<Block>)
    requires Extends(t, t') && ChainOk(t, chain)
    ensures ChainOk(t', chain)
  {
    hide Path, LinksOk;
    if chain != [] {
      PathSurvives(t, t', chain[|chain| - 1]);
      hide Extends;
    }
  }

  lemma {:induction false} PathSurvives(t: Tree, t': Tree, b: Block)
    requires Extends(t, t') && b in t.height
    ensures b in t'.height && Path(t', b) == Path(t, b)
  {
    hide Ancestor;
    assert t'.height[b] == t.height[b];
    forall h: nat | h <= t.height[b]
      ensures Ancestor(t', b, h) == Ancestor(t, b, h)
    {
      AncestorKept(t, t', b, h);
    }
    hide Extends;
  }

  // What happens to the index and the active chain; an event that does not fit is passed over.
  datatype Event = NewBlock(b: Block, prev: Block) | NewTip(b: Block)

  // Over any run the index keeps its shape and the chain is the full path of its tip.
  method Run(index: BlockIndex, chain: CChain, events: seq<Event>)
    requires TreeOk(index.tree) && chain.Valid(index.tree)
    modifies index, chain
    ensures TreeOk(index.tree) && chain.Valid(index.tree) && Extends(old(index.tree), index.tree)
  {
    hide SkipsOk, Ancestor, ChainOk;
    var i := 0;
    while i < |events|
      invariant 0 <= i <= |events| && TreeOk(index.tree) && chain.Valid(index.tree) && Extends(old(index.tree), index.tree)
    {
      match events[i] {
        case NewBlock(b, prev) =>
          if b != NULL && b !in index.tree.height && (prev == NULL || prev in index.tree.height) {
            ghost var before := index.tree;
            index.AddEntry(b, prev);
            ChainSurvives(before, index.tree, chain.vChain);
          }
        case NewTip(b) =>
          if b == NULL || b in index.tree.height {
            chain.SetTip(index.tree, b);
          }
      }
      i := i + 1;
    }
  }

  class CChain {
    var vChain: seq<Block>

    // The chain is the full path of ancestors of its tip.
    ghost predicate Valid(t: Tree)
      reads this
    {
      LinksOk(t) && ChainOk(t, vChain)
    }

    constructor ()
      ensures vChain == []
    {
      vChain := [];
    }

    function At(height: int): Block
      reads this
    {
      if height < 0 || height >= |vChain| then NULL else vChain[height]
    }

    predicate Contains(t: Tree, b: Block)
      requires b in t.height
      reads this
    {
      At(t.height[b]) == b
    }

    // The walk stops early at the first block that is in place already.
    method SetTip(t: Tree, b: Block)
      requires Valid(t) && (b == NULL || b in t.height)
      modifies this
      ensures Valid(t) && vChain == if b == NULL then [] else Path(t, b)
    {
      if b == NULL {
        vChain := [];
        return;
      }
      hide Ancestor, Filled, OnPath, Path;
      ghost var before := vChain;
      var n := t.height[b] + 1;
      vChain := if |vChain| >= n then vChain[..n] else vChain + seq(n - |vChain|, i => NULL);
      FillStart(t, before, vChain, b);
      ghost var p := FillUp(t, b, before);
      FillEnd(t, before, vChain, b, p);
    }

    // The walk down from b, up to the first block that is in its place.
    method FillUp(t: Tree, b: Block, ghost before: seq<Block>) returns (ghost end: Block)
      requires LinksOk(t) && b in t.height && Filled(t, before, vChain, b, b) && OnPath(t, b, b) && |vChain| == t.height[b] + 1
      modifies this
      ensures |vChain| == t.height[b] + 1 && Filled(t, before, vChain, b, end)
      ensures end != NULL ==> OnPath(t, b, end) && end in t.height && t.height[end] < |vChain| && vChain[t.height[end]] == end
    {
      hide Ancestor, Filled, OnPath;
      var p := b;
      while p != NULL && vChain[t.height[p]] != p
        invariant |vChain| == t.height[b] + 1 && Filled(t, before, vChain, b, p) && (p != NULL ==> OnPath(t, b, p))
        invariant p != NULL ==> p in t.height && t.height[p] < |vChain|
        decreases Below(t, p)
      {
        FillDown(t, before, vChain, b, p);
        vChain := vChain[t.height[p] := p];
        p := t.prev[p];
      }
      end := p;
    }

    // The highest block of the chain that is b or an ancestor of it.
    method FindFork(t: Tree, b: Block) returns (r: Block)
      requires Valid(t) && TreeOk(t) && (b == NULL || b in t.height)
      ensures b == NULL ==> r == NULL
      ensures b != NULL && r != NULL ==> OnPath(t, b, r) && Contains(t, r)
      ensures b != NULL ==> ApartFrom(t, vChain, b, Below(t, r))
    {
      if b == NULL {
        return NULL;
      }
      r := b;
      AncestorSelf(t, b);
      if t.height[b] > |vChain| - 1 {
        ghost var steps;
        r, steps := GetAncestor(t, b, |vChain| - 1);
      }
      assert ApartFrom(t, vChain, b, Below(t, r)) && (r != NULL ==> OnPath(t, b, r));
      hide SkipsOk, Ancestor, Path, ApartFrom, OnPath;
      while r != NULL && !Contains(t, r)
        invariant r != NULL ==> r in t.height && OnPath(t, b, r)
        invariant ApartFrom(t, vChain, b, Below(t, r))
        decreases Below(t, r)
      {
        ApartDown(t, vChain, b, r);
        PathDown(t, b, r);
        r := t.prev[r];
      }
    }

    // Ancestors of the start in steps that double after the first ten, down to the root.
    method GetLocator(t: Tree, start: Block) returns (have: seq<Block>)
      requires Valid(t) && TreeOk(t) && (start == NULL || start in t.height)
      ensures start == NULL && vChain == [] ==> have == []
      ensures start != NULL ==> Locates(t, start, have)
      ensures start == NULL && vChain != [] ==> Locates(t, vChain[|vChain| - 1], have)
    {
      hide SkipsOk, Ancestor, Locates;
      var p: Block := if start == NULL then At(|vChain| - 1) else start;
      have := [];
      if p != NULL {
        have := LocatorFrom(t, vChain, p);
      }
    }
  }

  // The list so far and the next block to go on it.
  ghost predicate Listing(t: Tree, b: Block, have: seq<Block>, p: Block)
    requires LinksOk(t) && b in t.height
  {
    && Descending(t, b, have) && p in t.height && OnPath(t, b, p) && Spaced(t, have + [p])
    && (if have == [] then p == b else have[0] == b && t.height[p] < t.height[have[|have| - 1]])
  }

  lemma {:induction false} ListingStart(t: Tree, b: Block)
    requires LinksOk(t) && b in t.height
    ensures Listing(t, b, [], b)
  {
  }

  lemma {:induction false} ListingNext(t: Tree, b: Block, have: seq<Block>, p: Block, q: Block)
    requires LinksOk(t) && b in t.height && Listing(t, b, have, p) && q in t.height && OnPath(t, b, q) && t.height[q] < t.height[p]
    requires t.height[q] == Down(t.height[p], Gap(|have| + 1))
    ensures Listing(t, b, have + [p], q)
  {
    hide LinksOk, OnPath, Gap, Down;
    OneMore(t, b, have, p);
    hide Descending;
    SpacedNext(t, have + [p], q);
  }

  lemma {:induction false} SpacedNext(t: Tree, s: seq<Block>, q: Block)
    requires s != [] && Spaced(t, s) && q in t.height && t.height[q] == Down(t.height[s[|s| - 1]], Gap(|s|))
    ensures Spaced(t, s + [q])
  {
    hide Gap, Down;
  }

  method LocatorFrom(t: Tree, chain: seq<Block>, b: Block) returns (have: seq<Block>)
    requires TreeOk(t) && ChainOk(t, chain) && b in t.height
    ensures Locates(t, b, have)
  {
    hide LinksOk, SkipsOk, ChainOk, Listing, OnPath, Ancestor, StepOk, Gap;
    have := [];
    var p: Block := b;
    var h, nStep := t.height[p], 1;
    StepStart(h);
    ListingStart(t, b);
    while h > 0
      invariant p in t.height && h == t.height[p] && Listing(t, b, have, p)
      invariant StepOk(t.height[b], h, |have|, nStep)
      decreases h
    {
      StepNext(t.height[b], h, |have| + 1, nStep);
      StepIsGap(t.height[b], h, |have|, nStep);
      var next := if h > nStep then h - nStep else 0;
      var q := StepDown(t, chain, p, next, b, have);
      ListingNext(t, b, have, p, q);
      have, p, h := have + [p], q, next;
      if |have| > 10 {
        nStep := nStep * 2;
      }
    }
    ListingEnd(t, b, have, p, nStep);
    have := have + [p];
  }

  lemma {:induction false} ListingEnd(t: Tree, b: Block, have: seq<Block>, p: Block, step: int)
    requires LinksOk(t) && b in t.height && Listing(t, b, have, p) && t.height[p] == 0
    requires StepOk(t.height[b], 0, |have|, step)
    ensures Locates(t, b, have + [p])
  {
    StepEnd(t.height[b], |have|, step);
    hide LinksOk, OnPath, StepOk, Pow2, Spaced;
    OneMore(t, b, have, p);
    hide Descending;
  }

  // How far below the start the i-th entry is, if there are so many blocks.
  ghost function Depth(i: nat): nat {
    if i <= 11 then i else 9 + Pow2(i - 10)
  }

  lemma {:induction false} DepthNext(i: nat)
    ensures Depth(i + 1) == Depth(i) + Gap(i + 1) && (i >= 11 ==> Depth(i) == 9 + Gap(i + 1)) && (i < 11 ==> Gap(i + 1) == 1)
  {
    assert Pow2(0) == 1 && Pow2(1) == 2;
  }

  // A locator lists the blocks at these depths, and the root at the end.
  lemma {:induction false} LocatorHeights(t: Tree, b: Block, have: seq<Block>, i: nat)
    requires LinksOk(t) && b in t.height && Locates(t, b, have) && i < |have|
    ensures have[i] in t.height && t.height[have[i]] == Down(t.height[b], Depth(i))
    ensures have[i] == Ancestor(t, b, Down(t.height[b], Depth(i)))
  {
    hide LinksOk, Ancestor, Gap, Depth;
    assert OnPath(t, b, have[i]);
    if i > 0 {
      LocatorHeights(t, b, have, i - 1);
      DepthNext(i - 1);
      assert t.height[have[i]] == Down(t.height[have[i - 1]], Gap(i));
    } else {
      assert Depth(0) == 0 by { FirstDepth(); }
    }
  }

  lemma {:induction false} FirstDepth()
    ensures Depth(0) == 0
  {
  }

  // So there is one locator for a start.
  lemma {:induction false} LocatorUnique(t: Tree, b: Block, have: seq<Block>, have': seq<Block>)
    requires LinksOk(t) && b in t.height && Locates(t, b, have) && Locates(t, b, have')
    ensures have == have'
  {
    hide Ancestor, Depth, OnPath;
    forall i | 0 <= i < |have| && i < |have'|
      ensures have[i] == have'[i]
    {
      LocatorHeights(t, b, have, i);
      LocatorHeights(t, b, have', i);
    }
    OnlyLastIsRoot(t, b, have);
    OnlyLastIsRoot(t, b, have');
    var k := if |have| < |have'| then |have| - 1 else |have'| - 1;
    assert have[k] == have'[k];
  }

  lemma {:induction false} OnlyLastIsRoot(t: Tree, b: Block, have: seq<Block>)
    requires LinksOk(t) && b in t.height && Locates(t, b, have)
    ensures forall i :: 0 <= i < |have| ==> have[i] in t.height && (t.height[have[i]] == 0 <==> i == |have| - 1)
  {
    hide Ancestor, Spaced, LinksOk;
    forall i | 0 <= i < |have| - 1
      ensures t.height[have[i]] > 0
    {
      assert t.height[have[i]] > t.height[have[|have| - 1]];
    }
  }

  // Wherever another chain leaves that of b, some entry at most twice as deep is below that.
  lemma {:induction false} LocatorReaches(t: Tree, b: Block, have: seq<Block>, h: nat) returns (i: nat)
    requires LinksOk(t) && b in t.height && Locates(t, b, have) && h <= t.height[b]
    ensures i < |have| && have[i] in t.height && t.height[have[i]] <= h
    ensures t.height[b] - t.height[have[i]] <= 2 * (t.height[b] - h)
    ensures t.height[b] - h <= 11 ==> t.height[have[i]] == h
  {
    hide LinksOk, Ancestor, Depth, Gap, Descending, Spaced;
    i := 0;
    LocatorHeights(t, b, have, 0);
    FirstDepth();
    while t.height[have[i]] > h
      invariant i < |have| && have[i] in t.height && t.height[have[i]] == Down(t.height[b], Depth(i))
      invariant i == 0 || t.height[b] - h > Depth(i - 1)
      decreases |have| - i
    {
      LocatorHeights(t, b, have, i);
      assert i < |have| - 1;
      i := i + 1;
      LocatorHeights(t, b, have, i);
    }
    if i > 0 {
      DepthNext(i - 1);
      if i <= 11 {
        assert Depth(i) == Depth(i - 1) + 1;
      } else {
        DeepEnough(i - 1);
      }
    }
  }

  lemma {:induction false} DeepEnough(i: nat)
    requires i >= 11
    ensures Depth(i) >= 11
  {
    if i > 11 {
      assert Pow2(i - 10) == 2 * Pow2(i - 11);
    }
  }

  // By index if the block is in the chain, and through the skip list otherwise.
  method StepDown(t: Tree, chain: seq<Block>, p: Block, h: nat, ghost b: Block, ghost have: seq<Block>) returns (q: Block)
    requires TreeOk(t) && ChainOk(t, chain) && b in t.height && p in t.height && Listing(t, b, have, p) && h <= t.height[p]
    ensures q in t.height && OnPath(t, b, q) && t.height[q] == h
  {
    hide Descending;
    AncestorOfAncestor(t, b, t.height[p], h);
    if t.height[p] < |chain| && chain[t.height[p]] == p {
      ContainedPath(t, chain, p, h);
      q := chain[h];
    } else {
      ghost var steps;
      q, steps := GetAncestor(t, p, h);
    }
  }

  // The full path of ancestors of its last block.
  ghost predicate ChainOk(t: Tree, chain: seq<Block>)
    requires LinksOk(t)
  {
    chain != [] ==> chain[|chain| - 1] in t.height && chain == Path(t, chain[|chain| - 1])
  }

  // x is b or an ancestor of it.
  ghost predicate OnPath(t: Tree, b: Block, x: Block)
    requires LinksOk(t) && b in t.height
  {
    x in t.height && t.height[x] <= t.height[b] && x == Ancestor(t, b, t.height[x])
  }

  ghost predicate Descending(t: Tree, b: Block, s: seq<Block>)
    requires LinksOk(t) && b in t.height
  {
    && (forall i :: 0 <= i < |s| ==> s[i] in t.height && OnPath(t, b, s[i]))
    && (forall i, j :: 0 <= i < j < |s| ==> t.height[s[i]] > t.height[s[j]])
  }

  // How far the i-th entry of a locator lies below the one before it: one for the first twelve,
  // and from there twice as far each time.
  ghost function Gap(i: nat): nat {
    if i <= 11 then 1 else Pow2(i - 11)
  }

  ghost function Down(h: nat, step: nat): nat {
    if h > step then h - step else 0
  }

  ghost predicate Spaced(t: Tree, s: seq<Block>) {
    && (forall i :: 0 <= i < |s| ==> s[i] in t.height)
    && (forall i :: 0 < i < |s| ==> t.height[s[i]] == Down(t.height[s[i - 1]], Gap(i)))
  }

  // From b down to the root with these gaps, and not longer than twelve and the logarithm of the height.
  ghost predicate Locates(t: Tree, b: Block, have: seq<Block>)
    requires LinksOk(t) && b in t.height
  {
    && Descending(t, b, have) && have != [] && have[0] == b
    && have[|have| - 1] in t.height && t.height[have[|have| - 1]] == 0 && Spaced(t, have)
    && (|have| > 12 ==> Pow2(|have| - 12) <= t.height[b])
  }

  // The number of blocks from the root up to p.
  ghost function Below(t: Tree, p: Block): nat
  {
    if p in t.height then t.height[p] + 1 else 0
  }

  lemma {:induction false} OneMore(t: Tree, b: Block, s: seq<Block>, p: Block)
    requires LinksOk(t) && b in t.height && Descending(t, b, s) && p in t.height && OnPath(t, b, p)
    requires s != [] ==> t.height[p] < t.height[s[|s| - 1]]
    ensures Descending(t, b, s + [p])
  {
    hide LinksOk, OnPath;
    var r, n := s + [p], |s|;
    forall i | 0 <= i < |r|
      ensures OnPath(t, b, r[i])
    {
    }
    forall i, j | 0 <= i < j < |r|
      ensures t.height[r[i]] > t.height[r[j]]
    {
      if j == n && i < n - 1 {
        assert t.height[s[i]] > t.height[s[n - 1]];
      }
    }
  }

  // With n blocks listed: the step, how far down it has come, and what n says of the start.
  ghost predicate StepOk(top: nat, now: nat, n: nat, step: int) {
    && step == (if n <= 10 then 1 else Pow2(n - 10))
    && (now > 0 ==> top >= now + step - 1)
    && (n >= 12 ==> Pow2(n - 11) <= top)
  }

  lemma {:induction false} StepIsGap(top: nat, now: nat, n: nat, step: int)
    requires StepOk(top, now, n, step)
    ensures step == Gap(n + 1)
  {
  }

  lemma {:induction false} StepStart(top: nat)
    ensures StepOk(top, top, 0, 1)
  {
  }

  lemma {:induction false} StepEnd(top: nat, n: nat, step: int)
    requires StepOk(top, 0, n, step)
    ensures n + 1 > 12 ==> Pow2(n + 1 - 12) <= top
  {
  }

  lemma {:induction false} StepNext(top: nat, now: nat, n: nat, step: int)
    requires n >= 1 && StepOk(top, now, n - 1, step) && now > 0
    ensures step >= 1 && (n > 12 ==> Pow2(n - 12) <= top)
    ensures StepOk(top, if now - step > 0 then now - step else 0, n, if n > 10 then step * 2 else step)
  {
  }

  lemma {:induction false} PathDown(t: Tree, b: Block, x: Block)
    requires LinksOk(t) && b in t.height && OnPath(t, b, x)
    ensures t.prev[x] != NULL ==> t.prev[x] in t.height && OnPath(t, b, t.prev[x])
    ensures Below(t, t.prev[x]) == t.height[x]
  {
    hide Ancestor;
    if t.height[x] > 0 {
      AncestorStep(t, b, t.height[x] - 1);
    }
  }

  // From height k up the chain has none of the ancestors of b.
  ghost predicate ApartFrom(t: Tree, chain: seq<Block>, b: Block, k: nat)
    requires LinksOk(t) && b in t.height
  {
    forall h :: k <= h <= t.height[b] && h < |chain| ==> chain[h] != Ancestor(t, b, h)
  }

  lemma {:induction false} ApartDown(t: Tree, chain: seq<Block>, b: Block, r: Block)
    requires LinksOk(t) && b in t.height && OnPath(t, b, r) && ApartFrom(t, chain, b, Below(t, r))
    requires !(t.height[r] < |chain| && chain[t.height[r]] == r)
    ensures ApartFrom(t, chain, b, t.height[r])
  {
    hide Ancestor;
  }

  // The chain above p is that of b; up to p it is as it was before, where it was that long.
  ghost predicate Filled(t: Tree, before: seq<Block>, chain: seq<Block>, b: Block, p: Block)
    requires LinksOk(t) && b in t.height
  {
    && |chain| == t.height[b] + 1 && Below(t, p) <= |chain|
    && (forall h :: Below(t, p) <= h < |chain| ==> chain[h] == Ancestor(t, b, h))
    && (forall h :: 0 <= h < Below(t, p) ==> chain[h] == if h < |before| then before[h] else NULL)
  }

  lemma {:induction false} FillStart(t: Tree, before: seq<Block>, chain: seq<Block>, b: Block)
    requires LinksOk(t) && b in t.height && |chain| == t.height[b] + 1
    requires forall h :: 0 <= h < |chain| ==> chain[h] == if h < |before| then before[h] else NULL
    ensures Filled(t, before, chain, b, b) && OnPath(t, b, b)
  {
    AncestorSelf(t, b);
  }

  lemma {:induction false} FillDown(t: Tree, before: seq<Block>, chain: seq<Block>, b: Block, p: Block)
    requires LinksOk(t) && b in t.height && Filled(t, before, chain, b, p) && OnPath(t, b, p)
    ensures Filled(t, before, chain[t.height[p] := p], b, t.prev[p])
    ensures t.prev[p] != NULL ==> OnPath(t, b, t.prev[p]) && t.prev[p] in t.height && t.height[t.prev[p]] < |chain|
    ensures Below(t, t.prev[p]) < Below(t, p)
  {
    hide Ancestor;
    PathDown(t, b, p);
  }

  lemma {:induction false} FillEnd(t: Tree, before: seq<Block>, chain: seq<Block>, b: Block, p: Block)
    requires LinksOk(t) && b in t.height && Filled(t, before, chain, b, p)
    requires before != [] ==> before[|before| - 1] in t.height && before == Path(t, before[|before| - 1])
    requires p != NULL ==> OnPath(t, b, p) && p in t.height && t.height[p] < |chain| && chain[t.height[p]] == p
    ensures chain == Path(t, b) && chain != [] && chain[|chain| - 1] == b
  {
    AncestorSelf(t, b);
    hide Ancestor;
    if p != NULL {
      SameBelow(t, before, b, p);
    }
  }

  // Where two paths share a block they are the same below it.
  lemma {:induction false} SameBelow(t: Tree, chain: seq<Block>, b: Block, p: Block)
    requires LinksOk(t) && b in t.height && p in t.height && t.height[p] <= t.height[b] && p == Ancestor(t, b, t.height[p])
    requires chain != [] && chain[|chain| - 1] in t.height && chain == Path(t, chain[|chain| - 1])
    requires t.height[p] < |chain| && chain[t.height[p]] == p
    ensures forall h :: 0 <= h <= t.height[p] ==> chain[h] == Ancestor(t, b, h)
  {
    forall h | 0 <= h <= t.height[p]
      ensures chain[h] == Ancestor(t, b, h)
    {
      AncestorOfAncestor(t, b, t.height[p], h);
      AncestorOfAncestor(t, chain[|chain| - 1], t.height[p], h);
    }
  }

  lemma {:induction false} ContainedPath(t: Tree, chain: seq<Block>, p: Block, h: nat)
    requires LinksOk(t) && p in t.height && h <= t.height[p] < |chain| && chain[t.height[p]] == p
    requires chain[|chain| - 1] in t.height && chain == Path(t, chain[|chain| - 1])
    ensures chain[h] == Ancestor(t, p, h)
  {
    AncestorOfAncestor(t, chain[|chain| - 1], t.height[p], h);
  }
}
