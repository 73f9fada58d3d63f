// Partial Merkle trees (src/merkleblock.cpp, src/merkleblock.h), following the section
// "Partial Merkle branch format" of BIP 37.

module MerkleTree {
  import opened Basics

  // A 256-bit hash; 0 is what a failed extraction returns.
  type Hash = nat

  // A matched transaction and its position in the block.
  datatype Match = Match(index: nat, txid: Hash)

  // The number of nodes at a height.
  function Width(n: nat, h: nat): nat {
    (n + Pow2(h) - 1) / Pow2(h)
  }

  // The leaves under a node are those from First to before Last.
  ghost function First(h: nat, pos: nat): nat {
    pos * Pow2(h)
  }

  ghost function Last(n: nat, h: nat, pos: nat): nat {
    if First(h, pos) + Pow2(h) < n then First(h, pos) + Pow2(h) else n
  }

  lemma {:induction false} MulMono(a: nat, b: nat, p: nat)
    requires a <= b
    ensures a * p <= b * p
  {
    assert b * p == a * p + (b - a) * p;
  }

  // A position is inside the tree exactly when its first leaf is.
  lemma {:induction false} InTree(n: nat, h: nat, pos: nat)
    ensures pos < Width(n, h) <==> First(h, pos) < n
  {
    var p, w := Pow2(h), Width(n, h);
    assert n + p - 1 == w * p + (n + p - 1) % p;
    if pos < w {
      MulMono(pos + 1, w, p);
      assert (pos + 1) * p == pos * p + p;
    } else {
      MulMono(w, pos, p);
    }
  }

  lemma {:induction false} Halves(h: nat, pos: nat)
    requires h > 0
    ensures First(h - 1, 2 * pos) == First(h, pos)
    ensures First(h - 1, 2 * pos + 1) == First(h, pos) + Pow2(h - 1)
    ensures Pow2(h) == Pow2(h - 1) + Pow2(h - 1)
  {
    var p := Pow2(h - 1);
    assert (2 * pos) * p == pos * (2 * p);
    assert (2 * pos + 1) * p == (2 * pos) * p + p;
  }

  // The leaves of a node are those of its one or two children.
  lemma {:induction false} Children(n: nat, h: nat, pos: nat)
    requires h > 0 && First(h, pos) < n
    ensures First(h - 1, 2 * pos) == First(h, pos)
    ensures 2 * pos + 1 < Width(n, h - 1) <==> First(h - 1, 2 * pos + 1) < n
    ensures 2 * pos + 1 < Width(n, h - 1) ==>
      Last(n, h - 1, 2 * pos) == First(h - 1, 2 * pos + 1) && Last(n, h - 1, 2 * pos + 1) == Last(n, h, pos)
    ensures 2 * pos + 1 >= Width(n, h - 1) ==> Last(n, h - 1, 2 * pos) == Last(n, h, pos)
  {
    Halves(h, pos);
    InTree(n, h - 1, 2 * pos + 1);
  }

  lemma {:induction false} AtLeaf(n: nat, h: nat, pos: nat)
    requires First(h, pos) < n
    ensures First(h, pos) < Last(n, h, pos) <= n
    ensures h == 0 ==> First(h, pos) == pos && Last(n, h, pos) == pos + 1
  {
  }

  // ---- the tree ----

  function NodeHash(H: (Hash, Hash) -> Hash, txids: seq<Hash>, h: nat, pos: nat): Hash
    requires First(h, pos) < |txids|
    decreases h
  {
    if h == 0 then txids[pos]
    else
      Children(|txids|, h, pos);
      var left := NodeHash(H, txids, h - 1, pos * 2);
      H(left, if pos * 2 + 1 < Width(|txids|, h - 1) then NodeHash(H, txids, h - 1, pos * 2 + 1) else left)
  }

  ghost predicate Injective(H: (Hash, Hash) -> Hash) {
    forall a, b, c, d :: H(a, b) == H(c, d) ==> a == c && b == d
  }

  ghost predicate Distinct(txids: seq<Hash>) {
    forall i, j :: 0 <= i < j < |txids| ==> txids[i] != txids[j]
  }

  // Nodes at one height have different hashes.
  lemma {:induction false} NodesDiffer(H: (Hash, Hash) -> Hash, txids: seq<Hash>, h: nat, p: nat, q: nat)
    requires Injective(H) && Distinct(txids) && p != q && First(h, p) < |txids| && First(h, q) < |txids|
    ensures NodeHash(H, txids, h, p) != NodeHash(H, txids, h, q)
    decreases h
  {
    if h > 0 {
      Children(|txids|, h, p);
      Children(|txids|, h, q);
      NodesDiffer(H, txids, h - 1, p * 2, q * 2);
    }
  }

  // ---- matched transactions ----

  ghost function MatchedIn(txids: seq<Hash>, match_: seq<bool>, lo: nat, hi: nat): seq<Match>
    requires |match_| == |txids| && hi <= |txids|
    decreases hi
  {
    if lo >= hi then []
    else MatchedIn(txids, match_, lo, hi - 1) + (if match_[hi - 1] then [Match(hi - 1, txids[hi - 1])] else [])
  }

  lemma {:induction false} MatchedSplit(txids: seq<Hash>, match_: seq<bool>, lo: nat, mid: nat, hi: nat)
    requires |match_| == |txids| && lo <= mid <= hi <= |txids|
    ensures MatchedIn(txids, match_, lo, hi) == MatchedIn(txids, match_, lo, mid) + MatchedIn(txids, match_, mid, hi)
    decreases hi
  {
    if mid < hi {
      MatchedSplit(txids, match_, lo, mid, hi - 1);
    }
  }

  // The list holds exactly the matched positions, in order.
  lemma {:induction false} MatchedIsAll(txids: seq<Hash>, match_: seq<bool>, lo: nat, hi: nat)
    requires |match_| == |txids| && hi <= |txids|
    ensures forall p :: lo <= p < hi ==> (match_[p] <==> Match(p, txids[p]) in MatchedIn(txids, match_, lo, hi))
    ensures forall m :: m in MatchedIn(txids, match_, lo, hi) ==> lo <= m.index < hi && m.txid == txids[m.index]
    decreases hi
  {
    if lo < hi {
      MatchedIsAll(txids, match_, lo, hi - 1);
    }
  }

  // ---- building ----

  datatype Part = Part(bits: seq<bool>, hashes: seq<Hash>)

  ghost predicate AnyMatch(match_: seq<bool>, lo: nat, hi: nat) {
    exists p :: lo <= p < hi && p < |match_| && match_[p]
  }

  ghost function Build(H: (Hash, Hash) -> Hash, txids: seq<Hash>, match_: seq<bool>, h: nat, pos: nat): Part
    requires |match_| == |txids| && First(h, pos) < |txids|
    decreases h
  {
    var n := |txids|;
    var parent := AnyMatch(match_, First(h, pos), Last(n, h, pos));
    if h == 0 || !parent then Part([parent], [NodeHash(H, txids, h, pos)])
    else
      Children(n, h, pos);
      var left := Build(H, txids, match_, h - 1, pos * 2);
      var right := if pos * 2 + 1 < Width(n, h - 1) then Build(H, txids, match_, h - 1, pos * 2 + 1) else Part([], []);
      Part([parent] + left.bits + right.bits, left.hashes + right.hashes)
  }

  lemma {:induction false} MulBound(a: nat, c: nat)
    requires a >= 1
    ensures 1 + a * c <= a * (c + 1)
  {
    assert a * (c + 1) == a * c + a;
  }

  lemma {:induction false} MulAdd(a: nat, b: nat, c: nat)
    ensures (a + b) * c == a * c + b * c
  {
  }

  lemma {:induction false} NoMatchNone(txids: seq<Hash>, match_: seq<bool>, lo: nat, hi: nat)
    requires |match_| == |txids| && hi <= |txids|
    ensures AnyMatch(match_, lo, hi) <==> MatchedIn(txids, match_, lo, hi) != []
    decreases hi
  {
    if lo < hi {
      NoMatchNone(txids, match_, lo, hi - 1);
      if match_[hi - 1] {
        assert AnyMatch(match_, lo, hi);
      }
    }
  }

  // The promised bounds: as many hashes as there are leaves, one and a path for every
  // match, and a bit for every hash.
  lemma {:induction false} BuildIsSmall(H: (Hash, Hash) -> Hash, txids: seq<Hash>, match_: seq<bool>, h: nat, pos: nat)
    requires |match_| == |txids| && First(h, pos) < |txids|
    ensures var part := Build(H, txids, match_, h, pos);
            var lo, hi := First(h, pos), Last(|txids|, h, pos);
            && |part.hashes| <= hi - lo && |part.hashes| <= |part.bits|
            && |part.hashes| <= 1 + |MatchedIn(txids, match_, lo, hi)| * h
    decreases h
  {
    hide Width, First, Last, Pow2, NodeHash;
    var n, lo, hi := |txids|, First(h, pos), Last(|txids|, h, pos);
    AtLeaf(n, h, pos);
    NoMatchNone(txids, match_, lo, hi);
    hide AnyMatch;
    if h > 0 && AnyMatch(match_, lo, hi) {
      Children(n, h, pos);
      BuildIsSmall(H, txids, match_, h - 1, pos * 2);
      BuildInner(H, txids, match_, h, pos);
      hide Build;
      var m := |MatchedIn(txids, match_, lo, hi)|;
      MulBound(m, h - 1);
      if First(h - 1, pos * 2 + 1) < n {
        BuildIsSmall(H, txids, match_, h - 1, pos * 2 + 1);
        var mid := First(h - 1, pos * 2 + 1);
        AtLeaf(n, h - 1, pos * 2);
        AtLeaf(n, h - 1, pos * 2 + 1);
        MatchedSplit(txids, match_, lo, mid, hi);
        MulAdd(|MatchedIn(txids, match_, lo, mid)|, |MatchedIn(txids, match_, mid, hi)|, h - 1);
      }
    }
  }

  // ---- how many flag bits there are ----

  // The nodes with one child that building goes into, at and below a node.
  ghost function OneChild(match_: seq<bool>, h: nat, pos: nat): nat
    requires First(h, pos) < |match_|
    decreases h
  {
    var n := |match_|;
    if h == 0 || !AnyMatch(match_, First(h, pos), Last(n, h, pos)) then 0
    else
      Children(n, h, pos);
      OneChild(match_, h - 1, pos * 2) +
      (if pos * 2 + 1 < Width(n, h - 1) then OneChild(match_, h - 1, pos * 2 + 1) else 1)
  }

  lemma {:induction false} CountBits(H: (Hash, Hash) -> Hash, txids: seq<Hash>, match_: seq<bool>, h: nat, pos: nat)
    requires |match_| == |txids| && First(h, pos) < |txids|
    ensures var part := Build(H, txids, match_, h, pos);
            |part.bits| == 2 * |part.hashes| - 1 + OneChild(match_, h, pos)
    decreases h
  {
    hide Width, First, Last, Pow2, NodeHash, AnyMatch;
    var n := |txids|;
    if h > 0 && AnyMatch(match_, First(h, pos), Last(n, h, pos)) {
      Children(n, h, pos);
      CountBits(H, txids, match_, h - 1, pos * 2);
      if pos * 2 + 1 < Width(n, h - 1) {
        CountBits(H, txids, match_, h - 1, pos * 2 + 1);
      }
    }
  }

  // The last node at height h has one child, and something is matched below it.
  ghost predicate Lonely(match_: seq<bool>, h: nat)
    requires |match_| > 0
  {
    h > 0 && Width(|match_|, h - 1) % 2 == 1 && AnyMatch(match_, LastFirst(|match_|, h), |match_|)
  }

  ghost function LastFirst(n: nat, h: nat): nat
    requires n > 0
  {
    SomeWidth(n, h);
    First(h, Width(n, h) - 1)
  }

  lemma {:induction false} SomeWidth(n: nat, h: nat)
    requires n > 0
    ensures Width(n, h) > 0
  {
    InTree(n, h, 0);
  }

  ghost function LonelyUpTo(match_: seq<bool>, h: nat): nat
    requires |match_| > 0
  {
    if h == 0 then 0 else LonelyUpTo(match_, h - 1) + (if Lonely(match_, h) then 1 else 0)
  }

  lemma {:induction false} WidthHalves(n: nat, h: nat)
    requires h > 0 && n > 0
    ensures 2 * Width(n, h) - 1 <= Width(n, h - 1) <= 2 * Width(n, h)
    ensures LastFirst(n, h) <= LastFirst(n, h - 1)
  {
    hide Pow2, Width, First;
    SomeWidth(n, h);
    SomeWidth(n, h - 1);
    var pos := Width(n, h) - 1;
    InTree(n, h, pos);
    InTree(n, h, pos + 1);
    Halves(h, pos);
    Halves(h, pos + 1);
    InTree(n, h - 1, 2 * pos);
    InTree(n, h - 1, 2 * pos + 2);
  }

  lemma {:induction false} NoneLonely(match_: seq<bool>, h: nat)
    requires |match_| > 0 && !AnyMatch(match_, LastFirst(|match_|, h), |match_|)
    ensures LonelyUpTo(match_, h) == 0
  {
    hide LastFirst, Width;
    if h > 0 {
      WidthHalves(|match_|, h);
      NoneLonely(match_, h - 1);
    }
  }

  lemma {:induction false} LastLeaves(n: nat, h: nat, pos: nat)
    requires First(h, pos) < n
    ensures pos < Width(n, h)
    ensures pos == Width(n, h) - 1 ==> First(h, pos) == LastFirst(n, h) && Last(n, h, pos) == n
  {
    InTree(n, h, pos);
    InTree(n, h, pos + 1);
    assert First(h, pos + 1) == First(h, pos) + Pow2(h);
  }

  // Only the last node of a height can have one child.
  lemma {:induction false} OneChildIsLonely(match_: seq<bool>, h: nat, pos: nat)
    requires First(h, pos) < |match_|
    ensures OneChild(match_, h, pos) == if pos == Width(|match_|, h) - 1 then LonelyUpTo(match_, h) else 0
    decreases h
  {
    hide Width, First, Last, Pow2, AnyMatch, LastFirst;
    var n := |match_|;
    LastLeaves(n, h, pos);
    if h > 0 {
      WidthHalves(n, h);
      if AnyMatch(match_, First(h, pos), Last(n, h, pos)) {
        Children(n, h, pos);
        OneChildIsLonely(match_, h - 1, pos * 2);
        if pos * 2 + 1 < Width(n, h - 1) {
          OneChildIsLonely(match_, h - 1, pos * 2 + 1);
        }
      } else if pos == Width(n, h) - 1 {
        NoneLonely(match_, h);
      }
    }
  }

  lemma {:induction false} LonelyCount(match_: seq<bool>, h: nat)
    requires |match_| > 0
    ensures LonelyUpTo(match_, h) == 0 <==> forall k :: 1 <= k <= h ==> !Lonely(match_, k)
  {
    hide Lonely;
    if h > 0 {
      LonelyCount(match_, h - 1);
    }
  }

  // One bit less than two for each hash, and one more for each height whose last node has one
  // child and a match below it; so the bound of the format holds exactly if there is no such height.
  lemma {:induction false} FlagBits(H: (Hash, Hash) -> Hash, txids: seq<Hash>, match_: seq<bool>, h: nat)
    requires |match_| == |txids| > 0 && Width(|txids|, h) == 1
    ensures First(h, 0) == 0
    ensures var part := Build(H, txids, match_, h, 0);
            && |part.bits| == 2 * |part.hashes| - 1 + LonelyUpTo(match_, h)
            && (|part.bits| <= 2 * |part.hashes| - 1 <==> forall k :: 1 <= k <= h ==> !Lonely(match_, k))
  {
    hide Build, OneChild, LonelyUpTo, Lonely;
    CountBits(H, txids, match_, h, 0);
    OneChildIsLonely(match_, h, 0);
    LonelyCount(match_, h);
  }

  // Three transactions with the last one matched: four bits for two hashes.
  lemma {:induction false} TooManyFlagBits(H: (Hash, Hash) -> Hash, txids: seq<Hash>)
    requires |txids| == 3
    ensures Width(3, 2) == 1 && First(2, 0) == 0
    ensures var part := Build(H, txids, [false, false, true], 2, 0);
            |part.bits| == 4 && |part.hashes| == 2
  {
    var match_ := [false, false, true];
    assert Pow2(1) == 2 && Pow2(2) == 4;
    assert !AnyMatch(match_, 0, 2) && match_[2];
    assert AnyMatch(match_, 0, 3) && AnyMatch(match_, 2, 3);
    assert Build(H, txids, match_, 0, 2).bits == [true];
    assert Build(H, txids, match_, 1, 0).bits == [false];
    assert |Build(H, txids, match_, 1, 1).bits| == 2;
  }

  lemma {:induction false} SomeHash(H: (Hash, Hash) -> Hash, txids: seq<Hash>, match_: seq<bool>, h: nat, pos: nat)
    requires |match_| == |txids| && First(h, pos) < |txids|
    ensures |Build(H, txids, match_, h, pos).hashes| >= 1
    decreases h
  {
    hide Width, First, Last, Pow2, NodeHash, AnyMatch;
    if h > 0 {
      Children(|txids|, h, pos);
      SomeHash(H, txids, match_, h - 1, pos * 2);
    }
  }

  lemma {:induction false} LonelyAtMost(match_: seq<bool>, h: nat)
    requires |match_| > 0
    ensures LonelyUpTo(match_, h) <= h
  {
    if h > 0 {
      LonelyAtMost(match_, h - 1);
    }
  }

  // With everything matched there is a hash for every leaf.
  lemma {:induction false} AllMatched(H: (Hash, Hash) -> Hash, txids: seq<Hash>, match_: seq<bool>, h: nat, pos: nat)
    requires |match_| == |txids| && First(h, pos) < |txids| && forall i :: 0 <= i < |match_| ==> match_[i]
    ensures |Build(H, txids, match_, h, pos).hashes| == Last(|txids|, h, pos) - First(h, pos)
    decreases h
  {
    hide Width, First, Last, Pow2, NodeHash;
    var n, lo := |txids|, First(h, pos);
    AtLeaf(n, h, pos);
    assert match_[lo] && AnyMatch(match_, lo, Last(n, h, pos));
    hide AnyMatch;
    if h > 0 {
      Children(n, h, pos);
      AllMatched(H, txids, match_, h - 1, pos * 2);
      if pos * 2 + 1 < Width(n, h - 1) {
        AllMatched(H, txids, match_, h - 1, pos * 2 + 1);
      }
    }
  }

  // The two lists that matches are kept in.
  function Txids(matches: seq<Match>): seq<Hash> {
    seq(|matches|, i requires 0 <= i < |matches| => matches[i].txid)
  }

  function Indexes(matches: seq<Match>): seq<nat> {
    seq(|matches|, i requires 0 <= i < |matches| => matches[i].index)
  }

  lemma {:induction false} ListsJoin(txids: seq<Hash>, indexes: seq<nat>, a: seq<Match>, b: seq<Match>)
    ensures txids + Txids(a) + Txids(b) == txids + Txids(a + b)
    ensures indexes + Indexes(a) + Indexes(b) == indexes + Indexes(a + b)
  {
    assert Txids(a) + Txids(b) == Txids(a + b) && Indexes(a) + Indexes(b) == Indexes(a + b);
  }

  // ---- extracting ----

  // The hash of a node, what has been used up, what was found, and whether fBad was set.
  datatype Found = Found(hash: Hash, bitsUsed: nat, hashUsed: nat, matches: seq<Match>, bad: bool)

  function Extract(H: (Hash, Hash) -> Hash, n: nat, bits: seq<bool>, hashes: seq<Hash>, h: nat, pos: nat, b: nat, k: nat): (f: Found)
    ensures f.bitsUsed >= b && f.hashUsed >= k
    decreases h
  {
    if b >= |bits| then Found(0, b, k, [], true)
    else if h == 0 || !bits[b] then
      if k >= |hashes| then Found(0, b + 1, k, [], true)
      else Found(hashes[k], b + 1, k + 1, if h == 0 && bits[b] then [Match(pos, hashes[k])] else [], false)
    else
      var left := Extract(H, n, bits, hashes, h - 1, pos * 2, b + 1, k);
      if pos * 2 + 1 < Width(n, h - 1) then
        var right := Extract(H, n, bits, hashes, h - 1, pos * 2 + 1, left.bitsUsed, left.hashUsed);
        Found(H(left.hash, right.hash), right.bitsUsed, right.hashUsed, left.matches + right.matches,
              left.bad || right.bad || right.hash == left.hash)
      else
        Found(H(left.hash, left.hash), left.bitsUsed, left.hashUsed, left.matches, left.bad)
  }

  ghost predicate Holds<T>(s: seq<T>, at: nat, part: seq<T>) {
    at + |part| <= |s| && s[at..at + |part|] == part
  }

  lemma {:induction false} HoldsParts<T>(s: seq<T>, at: nat, a: seq<T>, b: seq<T>)
    requires Holds(s, at, a + b)
    ensures Holds(s, at, a) && Holds(s, at + |a|, b)
  {
    var whole := s[at..at + |a + b|];
    assert whole[..|a|] == a && whole[|a|..] == b;
    assert s[at..at + |a|] == whole[..|a|];
    assert s[at + |a|..at + |a| + |b|] == whole[|a|..];
  }

  // One step into a node with something matched below it.
  lemma {:induction false} ExtractInner(H: (Hash, Hash) -> Hash, n: nat, bits: seq<bool>, hashes: seq<Hash>, h: nat, pos: nat, b: nat, k: nat)
    requires h > 0 && b < |bits| && bits[b]
    ensures var left := Extract(H, n, bits, hashes, h - 1, pos * 2, b + 1, k);
            var right := Extract(H, n, bits, hashes, h - 1, pos * 2 + 1, left.bitsUsed, left.hashUsed);
            Extract(H, n, bits, hashes, h, pos, b, k) ==
            if pos * 2 + 1 < Width(n, h - 1) then
              Found(H(left.hash, right.hash), right.bitsUsed, right.hashUsed, left.matches + right.matches,
                    left.bad || right.bad || right.hash == left.hash)
            else Found(H(left.hash, left.hash), left.bitsUsed, left.hashUsed, left.matches, left.bad)
  {
  }

  // One step that does not descend.
  lemma {:induction false} ExtractOuter(H: (Hash, Hash) -> Hash, n: nat, bits: seq<bool>, hashes: seq<Hash>, h: nat, pos: nat, b: nat, k: nat)
    requires b >= |bits| || h == 0 || !bits[b]
    ensures Extract(H, n, bits, hashes, h, pos, b, k) ==
            if b >= |bits| then Found(0, b, k, [], true)
            else if k >= |hashes| then Found(0, b + 1, k, [], true)
            else Found(hashes[k], b + 1, k + 1, if h == 0 && bits[b] then [Match(pos, hashes[k])] else [], false)
  {
  }

  ghost function NodePart(H: (Hash, Hash) -> Hash, txids: seq<Hash>, match_: seq<bool>, h: nat, pos: nat): Part
    requires |match_| == |txids|
  {
    if First(h, pos) < |txids| then Build(H, txids, match_, h, pos) else Part([], [])
  }

  lemma {:induction false} BuildOuter(H: (Hash, Hash) -> Hash, txids: seq<Hash>, match_: seq<bool>, h: nat, pos: nat)
    requires |match_| == |txids| && First(h, pos) < |txids|
    requires h == 0 || !AnyMatch(match_, First(h, pos), Last(|txids|, h, pos))
    ensures Build(H, txids, match_, h, pos) ==
            Part([AnyMatch(match_, First(h, pos), Last(|txids|, h, pos))], [NodeHash(H, txids, h, pos)])
  {
  }

  lemma {:induction false} BuildInner(H: (Hash, Hash) -> Hash, txids: seq<Hash>, match_: seq<bool>, h: nat, pos: nat)
    requires |match_| == |txids| && First(h, pos) < |txids| && h > 0
    requires AnyMatch(match_, First(h, pos), Last(|txids|, h, pos))
    ensures First(h - 1, pos * 2) < |txids|
    ensures var left := Build(H, txids, match_, h - 1, pos * 2);
            var right := NodePart(H, txids, match_, h - 1, pos * 2 + 1);
            Build(H, txids, match_, h, pos) == Part([true] + (left.bits + right.bits), left.hashes + right.hashes)
  {
    hide Width, Last, Pow2, First;
    Children(|txids|, h, pos);
    var left := Build(H, txids, match_, h - 1, pos * 2);
    var right := NodePart(H, txids, match_, h - 1, pos * 2 + 1);
    assert [true] + left.bits + right.bits == [true] + (left.bits + right.bits);
  }

  // What extracting the built node gives.
  ghost function Whole(H: (Hash, Hash) -> Hash, txids: seq<Hash>, match_: seq<bool>, h: nat, pos: nat, b: nat, k: nat): Found
    requires |match_| == |txids| && First(h, pos) < |txids|
  {
    var part := Build(H, txids, match_, h, pos);
    Found(NodeHash(H, txids, h, pos), b + |part.bits|, k + |part.hashes|,
          MatchedIn(txids, match_, First(h, pos), Last(|txids|, h, pos)), false)
  }

  lemma {:induction false} ExtractLeaf(H: (Hash, Hash) -> Hash, txids: seq<Hash>, match_: seq<bool>, h: nat, pos: nat,
                                       bits: seq<bool>, hashes: seq<Hash>, b: nat, k: nat)
    requires |match_| == |txids| && First(h, pos) < |txids|
    requires h == 0 || !AnyMatch(match_, First(h, pos), Last(|txids|, h, pos))
    requires Holds(bits, b, Build(H, txids, match_, h, pos).bits)
    requires Holds(hashes, k, Build(H, txids, match_, h, pos).hashes)
    ensures Extract(H, |txids|, bits, hashes, h, pos, b, k) == Whole(H, txids, match_, h, pos, b, k)
  {
    hide Width, First, Last, Pow2, NodeHash;
    var n, lo, hi := |txids|, First(h, pos), Last(|txids|, h, pos);
    AtLeaf(n, h, pos);
    assert bits[b..b + 1][0] == bits[b] && hashes[k..k + 1][0] == hashes[k];
    NoMatchNone(txids, match_, lo, hi);
    if h == 0 {
      assert NodeHash(H, txids, h, pos) == txids[pos] by { LeafHash(H, txids, pos); }
      assert bits[b] <==> match_[pos];
      assert MatchedIn(txids, match_, lo, pos) == [];
    }
  }

  lemma {:induction false} LeafHash(H: (Hash, Hash) -> Hash, txids: seq<Hash>, pos: nat)
    requires First(0, pos) < |txids| && pos < |txids|
    ensures NodeHash(H, txids, 0, pos) == txids[pos]
  {
  }

  // Extracting undoes building, wherever the part is in the two vectors.
  lemma {:induction false} ExtractBuilt(H: (Hash, Hash) -> Hash, txids: seq<Hash>, match_: seq<bool>, h: nat, pos: nat,
                                        bits: seq<bool>, hashes: seq<Hash>, b: nat, k: nat)
    requires Injective(H) && Distinct(txids) && |match_| == |txids| && First(h, pos) < |txids|
    requires Holds(bits, b, Build(H, txids, match_, h, pos).bits)
    requires Holds(hashes, k, Build(H, txids, match_, h, pos).hashes)
    ensures Extract(H, |txids|, bits, hashes, h, pos, b, k) == Whole(H, txids, match_, h, pos, b, k)
    decreases h
  {
    hide Width, First, Last, Pow2, Injective, Distinct, AnyMatch, Extract, Build, NodeHash, MatchedIn;
    var n, lo, hi := |txids|, First(h, pos), Last(|txids|, h, pos);
    if h == 0 || !AnyMatch(match_, lo, hi) {
      ExtractLeaf(H, txids, match_, h, pos, bits, hashes, b, k);
    } else {
      Children(n, h, pos);
      BuildInner(H, txids, match_, h, pos);
      InnerHash(H, txids, h, pos);
      var left, right := Build(H, txids, match_, h - 1, pos * 2), NodePart(H, txids, match_, h - 1, pos * 2 + 1);
      HoldsParts(bits, b, [true], left.bits + right.bits);
      assert bits[b..b + 1][0] == bits[b];
      HoldsParts(bits, b + 1, left.bits, right.bits);
      HoldsParts(hashes, k, left.hashes, right.hashes);
      ExtractInner(H, n, bits, hashes, h, pos, b, k);
      ExtractBuilt(H, txids, match_, h - 1, pos * 2, bits, hashes, b + 1, k);
      if First(h - 1, pos * 2 + 1) < n {
        ExtractBuilt(H, txids, match_, h - 1, pos * 2 + 1, bits, hashes, b + 1 + |left.bits|, k + |left.hashes|);
        NodesDiffer(H, txids, h - 1, pos * 2, pos * 2 + 1);
        assert lo <= First(h - 1, pos * 2 + 1) <= hi <= n by { Halves(h, pos); AtLeaf(n, h - 1, pos * 2 + 1); }
        MatchedSplit(txids, match_, lo, First(h - 1, pos * 2 + 1), hi);
      }
    }
  }

  // ---- the root is the Merkle root ----

  // The level above: neighbours hashed in pairs, left before right, the last one with itself if it has none.
  function LevelAbove(H: (Hash, Hash) -> Hash, s: seq<Hash>): (r: seq<Hash>)
    ensures |s| > 1 ==> 0 < |r| < |s|
  {
    seq((|s| + 1) / 2, i requires 0 <= i < (|s| + 1) / 2 => H(s[2 * i], if 2 * i + 1 < |s| then s[2 * i + 1] else s[2 * i]))
  }

  function MerkleRoot(H: (Hash, Hash) -> Hash, s: seq<Hash>): Hash
    requires s != []
    decreases |s|
  {
    if |s| == 1 then s[0] else MerkleRoot(H, LevelAbove(H, s))
  }

  ghost function Level(H: (Hash, Hash) -> Hash, s: seq<Hash>, h: nat): seq<Hash> {
    if h == 0 then s else LevelAbove(H, Level(H, s, h - 1))
  }

  // The sequence s lists the nodes of one height.
  ghost predicate AreNodes(H: (Hash, Hash) -> Hash, txids: seq<Hash>, h: nat, s: seq<Hash>) {
    && |s| == Width(|txids|, h)
    && forall pos :: 0 <= pos < |s| ==> First(h, pos) < |txids| && s[pos] == NodeHash(H, txids, h, pos)
  }

  // The nodes of one height are that level.
  lemma {:induction false} LevelIsNodes(H: (Hash, Hash) -> Hash, txids: seq<Hash>, h: nat)
    ensures AreNodes(H, txids, h, Level(H, txids, h))
  {
    if h == 0 {
      WidthOfLeaves(|txids|);
    } else {
      LevelIsNodes(H, txids, h - 1);
      WidthAbove(|txids|, h);
      hide Width, Pow2, First, NodeHash;
      var s := Level(H, txids, h);
      forall pos | 0 <= pos < |s|
        ensures First(h, pos) < |txids| && s[pos] == NodeHash(H, txids, h, pos)
      {
        LevelNode(H, txids, h, pos);
      }
    }
  }

  lemma {:induction false} WidthOfLeaves(n: nat)
    ensures Width(n, 0) == n && Pow2(0) == 1
  {
    DivUnique(n, n, 0, 1);
  }

  lemma {:induction false} WidthAbove(n: nat, h: nat)
    requires h > 0
    ensures Width(n, h) == (Width(n, h - 1) + 1) / 2
  {
    var p := Pow2(h - 1);
    assert Pow2(h) == 2 * p;
    hide Pow2;
    var w, v := Width(n, h - 1), (Width(n, h - 1) + 1) / 2;
    var r := (n + p - 1) % p;
    assert n + p - 1 == w * p + r;
    if w % 2 == 0 {
      assert w == 2 * v;
      assert w * p == v * (2 * p);
      DivUnique(n + 2 * p - 1, v, r + p, 2 * p);
    } else {
      assert w == 2 * v - 1;
      assert w * p == v * (2 * p) - p;
      DivUnique(n + 2 * p - 1, v, r, 2 * p);
    }
  }

  lemma {:induction false} LevelNode(H: (Hash, Hash) -> Hash, txids: seq<Hash>, h: nat, pos: nat)
    requires h > 0 && pos < Width(|txids|, h) && |Level(H, txids, h)| == Width(|txids|, h)
    requires AreNodes(H, txids, h - 1, Level(H, txids, h - 1))
    ensures First(h, pos) < |txids| && Level(H, txids, h)[pos] == NodeHash(H, txids, h, pos)
  {
    hide Width, First, Pow2, NodeHash, Last, AreNodes, LevelAbove;
    var below := Level(H, txids, h - 1);
    assert Level(H, txids, h) == LevelAbove(H, below);
    hide Level;
    InTree(|txids|, h, pos);
    InnerHash(H, txids, h, pos);
    NodeAt(H, txids, h - 1, below, pos * 2);
    if First(h - 1, pos * 2 + 1) < |txids| {
      NodeAt(H, txids, h - 1, below, pos * 2 + 1);
    } else {
      InTree(|txids|, h - 1, pos * 2 + 1);
    }
    AboveAt(H, below, pos);
  }

  lemma {:induction false} AboveAt(H: (Hash, Hash) -> Hash, s: seq<Hash>, i: nat)
    requires 2 * i < |s|
    ensures i < |LevelAbove(H, s)|
    ensures LevelAbove(H, s)[i] == H(s[i * 2], if i * 2 + 1 < |s| then s[i * 2 + 1] else s[i * 2])
  {
  }

  lemma {:induction false} NodeAt(H: (Hash, Hash) -> Hash, txids: seq<Hash>, h: nat, s: seq<Hash>, pos: nat)
    requires AreNodes(H, txids, h, s) && First(h, pos) < |txids|
    ensures pos < |s| == Width(|txids|, h) && s[pos] == NodeHash(H, txids, h, pos)
  {
    InTree(|txids|, h, pos);
    hide First, Width, NodeHash;
  }

  lemma {:induction false} RootOfLevel(H: (Hash, Hash) -> Hash, txids: seq<Hash>, h: nat)
    requires txids != [] && forall g :: 0 <= g < h ==> |Level(H, txids, g)| > 1
    ensures Level(H, txids, h) != [] && MerkleRoot(H, Level(H, txids, h)) == MerkleRoot(H, txids)
  {
    hide LevelAbove;
    if h > 0 {
      RootOfLevel(H, txids, h - 1);
    }
  }

  // A hash of some node of the tree over these transactions.
  ghost predicate OfNode(H: (Hash, Hash) -> Hash, txids: seq<Hash>, x: Hash) {
    exists h: nat, pos: nat :: First(h, pos) < |txids| && x == NodeHash(H, txids, h, pos)
  }

  // Whatever was sent: if a node comes out with its true hash, every stored hash that was used is
  // that of a node of the block.
  lemma {:induction false} ExtractUsesNodes(H: (Hash, Hash) -> Hash, txids: seq<Hash>, bits: seq<bool>, hashes: seq<Hash>,
                                            h: nat, pos: nat, b: nat, k: nat)
    requires Injective(H) && First(h, pos) < |txids|
    requires !Extract(H, |txids|, bits, hashes, h, pos, b, k).bad
    requires Extract(H, |txids|, bits, hashes, h, pos, b, k).hash == NodeHash(H, txids, h, pos)
    ensures Extract(H, |txids|, bits, hashes, h, pos, b, k).hashUsed <= |hashes|
    ensures forall i :: k <= i < Extract(H, |txids|, bits, hashes, h, pos, b, k).hashUsed ==> OfNode(H, txids, hashes[i])
    decreases h
  {
    hide Width, First, Last, Pow2, Extract, NodeHash, Injective, OfNode;
    if h > 0 && b < |bits| && bits[b] {
      Children(|txids|, h, pos);
      var left := Extract(H, |txids|, bits, hashes, h - 1, pos * 2, b + 1, k);
      var right := Extract(H, |txids|, bits, hashes, h - 1, pos * 2 + 1, left.bitsUsed, left.hashUsed);
      ExtractInner(H, |txids|, bits, hashes, h, pos, b, k);
      InnerHash(H, txids, h, pos);
      var l := NodeHash(H, txids, h - 1, pos * 2);
      if pos * 2 + 1 < Width(|txids|, h - 1) {
        SameParts(H, left.hash, right.hash, l, NodeHash(H, txids, h - 1, pos * 2 + 1));
        ExtractUsesNodes(H, txids, bits, hashes, h - 1, pos * 2 + 1, left.bitsUsed, left.hashUsed);
      } else {
        SameParts(H, left.hash, left.hash, l, l);
      }
      ExtractUsesNodes(H, txids, bits, hashes, h - 1, pos * 2, b + 1, k);
    } else {
      ExtractOuter(H, |txids|, bits, hashes, h, pos, b, k);
      IsOfNode(H, txids, h, pos);
    }
  }

  lemma {:induction false} IsOfNode(H: (Hash, Hash) -> Hash, txids: seq<Hash>, h: nat, pos: nat)
    requires First(h, pos) < |txids|
    ensures OfNode(H, txids, NodeHash(H, txids, h, pos))
  {
  }

  // Whatever bits and hashes are sent: if a node comes out with the hash it has in the
  // block, then all that was found under it is in the block, at that place.
  lemma {:induction false} ExtractIsGenuine(H: (Hash, Hash) -> Hash, txids: seq<Hash>, bits: seq<bool>, hashes: seq<Hash>,
                                            h: nat, pos: nat, b: nat, k: nat)
    requires Injective(H) && First(h, pos) < |txids|
    requires !Extract(H, |txids|, bits, hashes, h, pos, b, k).bad
    requires Extract(H, |txids|, bits, hashes, h, pos, b, k).hash == NodeHash(H, txids, h, pos)
    ensures forall m :: m in Extract(H, |txids|, bits, hashes, h, pos, b, k).matches ==>
      m.index < |txids| && txids[m.index] == m.txid
    decreases h
  {
    hide Width, First, Last, Pow2, Extract, NodeHash, Injective;
    if h > 0 && b < |bits| && bits[b] {
      Children(|txids|, h, pos);
      var left := Extract(H, |txids|, bits, hashes, h - 1, pos * 2, b + 1, k);
      var right := Extract(H, |txids|, bits, hashes, h - 1, pos * 2 + 1, left.bitsUsed, left.hashUsed);
      ExtractInner(H, |txids|, bits, hashes, h, pos, b, k);
      InnerHash(H, txids, h, pos);
      var l := NodeHash(H, txids, h - 1, pos * 2);
      if pos * 2 + 1 < Width(|txids|, h - 1) {
        SameParts(H, left.hash, right.hash, l, NodeHash(H, txids, h - 1, pos * 2 + 1));
        ExtractIsGenuine(H, txids, bits, hashes, h - 1, pos * 2 + 1, left.bitsUsed, left.hashUsed);
      } else {
        SameParts(H, left.hash, left.hash, l, l);
      }
      ExtractIsGenuine(H, txids, bits, hashes, h - 1, pos * 2, b + 1, k);
    } else {
      ExtractOuter(H, |txids|, bits, hashes, h, pos, b, k);
      AtLeaf(|txids|, h, pos);
      if h == 0 {
        LeafHash(H, txids, pos);
      }
    }
  }

  lemma {:induction false} SameParts(H: (Hash, Hash) -> Hash, a: Hash, b: Hash, c: Hash, d: Hash)
    requires Injective(H) && H(a, b) == H(c, d)
    ensures a == c && b == d
  {
  }

  lemma {:induction false} InnerHash(H: (Hash, Hash) -> Hash, txids: seq<Hash>, h: nat, pos: nat)
    requires First(h, pos) < |txids| && h > 0
    ensures First(h - 1, pos * 2) < |txids|
    ensures NodeHash(H, txids, h, pos) ==
            H(NodeHash(H, txids, h - 1, pos * 2),
              if First(h - 1, pos * 2 + 1) < |txids| then NodeHash(H, txids, h - 1, pos * 2 + 1) else NodeHash(H, txids, h - 1, pos * 2))
  {
    hide Width, Last, Pow2, First;
    Children(|txids|, h, pos);
  }
}

module MerkleBits {

  // The bit for position k of a byte.
  function Mask(k: nat): bv8
    requires k < 8
  {
    match k
    case 0 => 1
    case 1 => 2
    case 2 => 4
    case 3 => 8
    case 4 => 16
    case 5 => 32
    case 6 => 64
    case _ => 128
  }

  predicate Bit(x: bv8, k: nat)
    requires k < 8
  {
    x & Mask(k) != 0
  }

  lemma {:induction false} SetBit(x: bv8, k: nat, j: nat)
    requires k < 8 && j < 8
    ensures Bit(x | Mask(k), j) == (Bit(x, j) || j == k)
  {
    if j == k {
      assert (x | Mask(k)) & Mask(k) == Mask(k);
    } else {
      assert Mask(k) & Mask(j) == 0;
      assert (x | Mask(k)) & Mask(j) == (x & Mask(j)) | (Mask(k) & Mask(j));
    }
  }

  lemma {:induction false} NoBit(j: nat)
    requires j < 8
    ensures !Bit(0, j)
  {
  }

  // The bits, filled up with false to whole bytes.
  function Padded(bits: seq<bool>): (r: seq<bool>)
    ensures |r| == (|bits| + 7) / 8 * 8 && bits <= r
  {
    bits + seq((|bits| + 7) / 8 * 8 - |bits|, i => false)
  }

  method Pack(bits: seq<bool>) returns (bytes: seq<bv8>)
    ensures |bytes| == (|bits| + 7) / 8
    ensures forall q :: 0 <= q < 8 * |bytes| ==> Bit(bytes[q / 8], q % 8) == Padded(bits)[q]
  {
    hide Bit;
    bytes := seq((|bits| + 7) / 8, i => 0);
    var p := 0;
    forall q | 0 <= q < 8 * |bytes|
      ensures !Bit(bytes[q / 8], q % 8)
    {
      NoBit(q % 8);
    }
    while p < |bits|
      invariant 0 <= p <= |bits| && |bytes| == (|bits| + 7) / 8
      invariant Packed(bytes, bits, p)
    {
      PackOne(bytes, bits, p);
      if bits[p] {
        bytes := bytes[p / 8 := bytes[p / 8] | Mask(p % 8)];
      }
      p := p + 1;
    }
  }

  // The first p bits are in the bytes, and no others.
  ghost predicate Packed(bytes: seq<bv8>, bits: seq<bool>, p: nat)
    requires p <= |bits|
  {
    forall q :: 0 <= q < 8 * |bytes| ==> Bit(bytes[q / 8], q % 8) == (q < p && bits[q])
  }

  lemma {:induction false} PackOne(bytes: seq<bv8>, bits: seq<bool>, p: nat)
    requires p < |bits| && |bytes| == (|bits| + 7) / 8 && Packed(bytes, bits, p)
    ensures p / 8 < |bytes|
    ensures Packed(if bits[p] then bytes[p / 8 := bytes[p / 8] | Mask(p % 8)] else bytes, bits, p + 1)
  {
    hide Bit, Mask;
    if bits[p] {
      var bytes' := bytes[p / 8 := bytes[p / 8] | Mask(p % 8)];
      forall q | 0 <= q < 8 * |bytes'|
        ensures Bit(bytes'[q / 8], q % 8) == (q < p + 1 && bits[q])
      {
        PackAt(bytes, p, q);
      }
    }
  }

  lemma {:induction false} PackAt(bytes: seq<bv8>, p: nat, q: nat)
    requires p < 8 * |bytes| && q < 8 * |bytes|
    ensures Bit(bytes[p / 8 := bytes[p / 8] | Mask(p % 8)][q / 8], q % 8) == (Bit(bytes[q / 8], q % 8) || q == p)
  {
    hide Bit, Mask;
    assert p == 8 * (p / 8) + p % 8 && q == 8 * (q / 8) + q % 8;
    if q / 8 == p / 8 {
      SetBit(bytes[p / 8], p % 8, q % 8);
    }
  }

  method Unpack(bytes: seq<bv8>) returns (bits: seq<bool>)
    ensures |bits| == 8 * |bytes| && forall q :: 0 <= q < |bits| ==> bits[q] == Bit(bytes[q / 8], q % 8)
  {
    bits := [];
    while |bits| < 8 * |bytes|
      invariant |bits| <= 8 * |bytes|
      invariant forall q :: 0 <= q < |bits| ==> bits[q] == Bit(bytes[q / 8], q % 8)
    {
      bits := bits + [Bit(bytes[|bits| / 8], |bits| % 8)];
    }
  }
}

module PartialMerkleTree {
  import opened Basics
  import opened MerkleTree
  import opened MerkleBits

  const MAX_BLOCK_WEIGHT := 4000000
  const MIN_TRANSACTION_WEIGHT := 240

  // The height of the root over n leaves.
  ghost predicate IsHeight(n: nat, h: nat) {
    Width(n, h) <= 1 && forall g :: 0 <= g < h ==> Width(n, g) > 1
  }

  method CalcHeight(n: nat) returns (h: nat)
    ensures IsHeight(n, h)
  {
    h := 0;
    while Width(n, h) > 1
      invariant forall g :: 0 <= g < h ==> Width(n, g) > 1
      decreases n - Pow2(h)
    {
      assert Pow2(h) < n by { InTree(n, h, 1); }
      h := h + 1;
    }
  }

  lemma {:induction false} RootSpansAll(n: nat, h: nat)
    requires n > 0 && IsHeight(n, h)
    ensures First(h, 0) == 0 && Last(n, h, 0) == n
  {
    InTree(n, h, 1);
  }

  lemma {:induction false} HeightUnique(n: nat, g: nat, h: nat)
    requires IsHeight(n, g) && IsHeight(n, h)
    ensures g == h
  {
    hide Width;
  }

  // The hash at the top is the Merkle root of the block.
  lemma {:induction false} TopIsMerkleRoot(H: (Hash, Hash) -> Hash, txids: seq<Hash>, h: nat)
    requires txids != [] && IsHeight(|txids|, h)
    ensures First(h, 0) < |txids| && NodeHash(H, txids, h, 0) == MerkleRoot(H, txids)
  {
    RootSpansAll(|txids|, h);
    hide Width, First, Pow2, NodeHash;
    forall g | 0 <= g <= h
      ensures |Level(H, txids, g)| == Width(|txids|, g)
    {
      LevelIsNodes(H, txids, g);
    }
    LevelIsNodes(H, txids, h);
    RootOfLevel(H, txids, h);
  }

  // The checks of ExtractMatches on the vectors and on what a traversal gave.
  predicate Accepted(n: nat, bits: seq<bool>, hashes: seq<Hash>, f: Found) {
    && n != 0 && n <= MAX_BLOCK_WEIGHT / MIN_TRANSACTION_WEIGHT
    && |hashes| <= n && |bits| >= |hashes|
    && !f.bad && (f.bitsUsed + 7) / 8 == (|bits| + 7) / 8 && f.hashUsed == |hashes|
  }

  lemma {:induction false} Joined<T>(a: seq<T>, b: seq<T>, c: seq<T>, d: seq<T>)
    ensures b == [] ==> a + c + d == a + (c + d) && (d == [] ==> a + c == a + (c + d))
    ensures a + b + c + d == a + (b + (c + d)) && (d == [] ==> a + b + c == a + (b + (c + d)))
  {
    assert a + b + c + d == a + (b + (c + d));
    if b == [] {
      assert a + c + d == a + (c + d);
    }
  }

  class CPartialMerkleTree {
    var nTransactions: nat
    var vBits: seq<bool>
    var vHash: seq<Hash>
    var fBad: bool

    // The tree for some transactions of a block, and the tree read from a message.
    constructor (H: (Hash, Hash) -> Hash, vTxid: seq<Hash>, vMatch: seq<bool>)
      requires vTxid != [] && |vMatch| == |vTxid|
      ensures nTransactions == |vTxid| && !fBad
      ensures forall h :: IsHeight(|vTxid|, h) ==> Part(vBits, vHash) == NodePart(H, vTxid, vMatch, h, 0)
    {
      nTransactions, fBad, vBits, vHash := |vTxid|, false, [], [];
      new;
      var h := CalcHeight(nTransactions);
      RootSpansAll(nTransactions, h);
      TraverseAndBuild(H, h, 0, vTxid, vMatch);
      forall g | IsHeight(|vTxid|, g)
        ensures g == h
      {
        HeightUnique(|vTxid|, g, h);
      }
    }

    constructor Deserialize(n: nat, hashes: seq<Hash>, bytes: seq<bv8>)
      ensures nTransactions == n && vHash == hashes && !fBad && |vBits| == 8 * |bytes|
      ensures forall q :: 0 <= q < |vBits| ==> vBits[q] == Bit(bytes[q / 8], q % 8)
    {
      nTransactions, vHash, fBad := n, hashes, false;
      var bits := Unpack(bytes);
      vBits := bits;
    }

    method TraverseAndBuild(H: (Hash, Hash) -> Hash, h: nat, pos: nat, vTxid: seq<Hash>, vMatch: seq<bool>)
      requires nTransactions == |vTxid| == |vMatch| && First(h, pos) < |vTxid|
      modifies this
      ensures nTransactions == old(nTransactions) && fBad == old(fBad)
      ensures vBits == old(vBits) + Build(H, vTxid, vMatch, h, pos).bits
      ensures vHash == old(vHash) + Build(H, vTxid, vMatch, h, pos).hashes
      decreases h
    {
      hide Width, First, Last, Pow2, NodeHash, Build, AnyMatch;
      var parent := Scan(vMatch, h, pos);
      vBits := vBits + [parent];
      if h == 0 || !parent {
        BuildOuter(H, vTxid, vMatch, h, pos);
        vHash := vHash + [NodeHash(H, vTxid, h, pos)];
      } else {
        Children(nTransactions, h, pos);
        BuildInner(H, vTxid, vMatch, h, pos);
        ghost var left, right := Build(H, vTxid, vMatch, h - 1, pos * 2), NodePart(H, vTxid, vMatch, h - 1, pos * 2 + 1);
        TraverseAndBuild(H, h - 1, pos * 2, vTxid, vMatch);
        if pos * 2 + 1 < Width(nTransactions, h - 1) {
          TraverseAndBuild(H, h - 1, pos * 2 + 1, vTxid, vMatch);
        }
        Joined(old(vBits), [true], left.bits, right.bits);
        Joined(old(vHash), [], left.hashes, right.hashes);
      }
    }

    // Whether the node is the parent of a match.
    method Scan(vMatch: seq<bool>, h: nat, pos: nat) returns (parent: bool)
      requires nTransactions == |vMatch|
      ensures parent == AnyMatch(vMatch, First(h, pos), Last(nTransactions, h, pos))
    {
      parent := false;
      var p := pos * Pow2(h);
      var end := p + Pow2(h);
      while p < end && p < nTransactions
        invariant First(h, pos) <= p <= end
        invariant parent == AnyMatch(vMatch, First(h, pos), p)
      {
        parent := parent || vMatch[p];
        p := p + 1;
      }
    }

    method TraverseAndExtract(H: (Hash, Hash) -> Hash, h: nat, pos: nat, nBitsUsed: nat, nHashUsed: nat,
                              vMatch0: seq<Hash>, vnIndex0: seq<nat>)
      returns (hash: Hash, bitsUsed: nat, hashUsed: nat, vMatch: seq<Hash>, vnIndex: seq<nat>)
      modifies this`fBad
      ensures var f := Extract(H, nTransactions, vBits, vHash, h, pos, nBitsUsed, nHashUsed);
              && hash == f.hash && bitsUsed == f.bitsUsed && hashUsed == f.hashUsed
              && vMatch == vMatch0 + Txids(f.matches) && vnIndex == vnIndex0 + Indexes(f.matches)
              && fBad == (old(fBad) || f.bad)
      decreases h
    {
      hide Width, Extract;
      vMatch, vnIndex := vMatch0, vnIndex0;
      if nBitsUsed >= |vBits| {
        ExtractOuter(H, nTransactions, vBits, vHash, h, pos, nBitsUsed, nHashUsed);
        fBad := true;
        return 0, nBitsUsed, nHashUsed, vMatch, vnIndex;
      }
      if h == 0 || !vBits[nBitsUsed] {
        ExtractOuter(H, nTransactions, vBits, vHash, h, pos, nBitsUsed, nHashUsed);
        if nHashUsed >= |vHash| {
          fBad := true;
          return 0, nBitsUsed + 1, nHashUsed, vMatch, vnIndex;
        }
        if h == 0 && vBits[nBitsUsed] {
          vMatch, vnIndex := vMatch + [vHash[nHashUsed]], vnIndex + [pos];
        }
        return vHash[nHashUsed], nBitsUsed + 1, nHashUsed + 1, vMatch, vnIndex;
      }
      ExtractInner(H, nTransactions, vBits, vHash, h, pos, nBitsUsed, nHashUsed);
      ghost var first := Extract(H, nTransactions, vBits, vHash, h - 1, pos * 2, nBitsUsed + 1, nHashUsed);
      var left, right;
      left, bitsUsed, hashUsed, vMatch, vnIndex := TraverseAndExtract(H, h - 1, pos * 2, nBitsUsed + 1, nHashUsed, vMatch, vnIndex);
      right := left;
      if pos * 2 + 1 < Width(nTransactions, h - 1) {
        ghost var second := Extract(H, nTransactions, vBits, vHash, h - 1, pos * 2 + 1, bitsUsed, hashUsed);
        right, bitsUsed, hashUsed, vMatch, vnIndex := TraverseAndExtract(H, h - 1, pos * 2 + 1, bitsUsed, hashUsed, vMatch, vnIndex);
        ListsJoin(vMatch0, vnIndex0, first.matches, second.matches);
        if right == left {
          fBad := true;
        }
      }
      hash := H(left, right);
    }

    // The root and the matches, or 0 for a root if any check fails. The list of hashes is
    // cleared first, the list of positions is not.
    method ExtractMatches(H: (Hash, Hash) -> Hash, vnIndex0: seq<nat>)
      returns (root: Hash, vMatch: seq<Hash>, vnIndex: seq<nat>, ghost h: nat)
      modifies this`fBad
      ensures IsHeight(nTransactions, h) && vnIndex0 <= vnIndex
      ensures var f := Extract(H, nTransactions, vBits, vHash, h, 0, 0, 0);
              if !old(fBad) && Accepted(nTransactions, vBits, vHash, f)
              then root == f.hash && vMatch == Txids(f.matches) && vnIndex == vnIndex0 + Indexes(f.matches)
              else root == 0
    {
      hide Extract;
      vMatch, vnIndex := [], vnIndex0;
      var height := CalcHeight(nTransactions);
      h := height;
      if nTransactions == 0 || nTransactions > MAX_BLOCK_WEIGHT / MIN_TRANSACTION_WEIGHT {
        return 0, vMatch, vnIndex, h;
      }
      if |vHash| > nTransactions || |vBits| < |vHash| {
        return 0, vMatch, vnIndex, h;
      }
      var bitsUsed, hashUsed;
      root, bitsUsed, hashUsed, vMatch, vnIndex := TraverseAndExtract(H, height, 0, 0, 0, vMatch, vnIndex);
      if fBad || (bitsUsed + 7) / 8 != (|vBits| + 7) / 8 || hashUsed != |vHash| {
        root := 0;
      }
    }
  }

  // ---- the size of a serialized tree ----

  function CompactSize(n: nat): nat {
    if n < 253 then 1 else if n <= 0xffff then 3 else if n <= 0xffff_ffff then 5 else 9
  }

  function Bytes(bits: nat): nat {
    (bits + 7) / 8
  }

  // The number of transactions, the hashes and the bytes of flag bits, each list after its length.
  function SerializedSize(part: Part): nat {
    var b := Bytes(|part.bits|);
    4 + CompactSize(|part.hashes|) + 32 * |part.hashes| + CompactSize(b) + b
  }

  // The promise: at most 10 bytes, and 32.25 for each hash, rounded up.
  ghost predicate SmallEnough(part: Part) {
    SerializedSize(part) <= 10 + 32 * |part.hashes| + (|part.hashes| + 3) / 4
  }

  // For blocks up to the largest that a proof is accepted for, the promise holds if and only
  // if the bits take one byte to count, or few last nodes have one child.
  lemma {:induction false} SizeBound(H: (Hash, Hash) -> Hash, txids: seq<Hash>, match_: seq<bool>, h: nat)
    requires |match_| == |txids| && 1 <= |txids| <= MAX_BLOCK_WEIGHT / MIN_TRANSACTION_WEIGHT && IsHeight(|txids|, h)
    ensures First(h, 0) < |txids|
    ensures var n, lonely := |Build(H, txids, match_, h, 0).hashes|, LonelyUpTo(match_, h);
            SmallEnough(Build(H, txids, match_, h, 0)) <==> 2 * n + lonely <= 2017 || lonely <= 1 + 6 * n % 8
  {
    hide Build, LonelyUpTo, Pow2, Width, NodeHash;
    RootSpansAll(|txids|, h);
    BuildIsSmall(H, txids, match_, h, 0);
    SomeHash(H, txids, match_, h, 0);
    HeightAtMost15(|txids|, h);
    LonelyAtMost(match_, h);
    FlagBitCount(H, txids, match_, h);
    var part := Build(H, txids, match_, h, 0);
    SizeArithmetic(|part.hashes|, LonelyUpTo(match_, h), |part.bits|);
  }

  lemma {:induction false} FlagBitCount(H: (Hash, Hash) -> Hash, txids: seq<Hash>, match_: seq<bool>, h: nat)
    requires |match_| == |txids| > 0 && IsHeight(|txids|, h)
    ensures First(h, 0) < |txids|
    ensures var part := Build(H, txids, match_, h, 0);
            |part.bits| == 2 * |part.hashes| - 1 + LonelyUpTo(match_, h)
  {
    hide Build, LonelyUpTo, Pow2;
    InTree(|txids|, h, 0);
    InTree(|txids|, h, 1);
    FlagBits(H, txids, match_, h);
  }

  lemma {:induction false} SizeArithmetic(n: nat, lonely: nat, bits: nat)
    requires 1 <= n <= 16666 && lonely <= 15 && bits == 2 * n - 1 + lonely
    ensures 4 + CompactSize(n) + 32 * n + CompactSize(Bytes(bits)) + Bytes(bits) <= 10 + 32 * n + (n + 3) / 4 <==>
            2 * n + lonely <= 2017 || lonely <= 1 + 6 * n % 8
  {
    var m, r := n / 4, n % 4;
    assert n == 4 * m + r && 0 <= r < 4;
    var extra := (2 * r + 6 + lonely) / 8;
    assert Bytes(bits) == m + extra by {
      DivUnique(bits + 7, m + extra, (2 * r + 6 + lonely) % 8, 8);
    }
    assert (n + 3) / 4 == m + (if r == 0 then 0 else 1) by {
      DivUnique(n + 3, m + (if r == 0 then 0 else 1), if r == 0 then 3 else r - 1, 4);
    }
    SizeByRest(m, r, lonely, extra);
    assert 6 * n % 8 == TwiceRest(r) by { SixfoldRest(n, m, r); }
    assert Bytes(bits) < 253 <==> 2 * n + lonely <= 2017;
    hide Bytes, TwiceRest;
    assert CompactSize(n) == (if n < 253 then 1 else 3) && CompactSize(Bytes(bits)) == (if Bytes(bits) < 253 then 1 else 3);
  }

  // What 6 * n leaves modulo 8, from what n leaves modulo 4.
  function TwiceRest(r: nat): nat {
    if r == 0 then 0 else if r == 1 then 6 else if r == 2 then 4 else 2
  }

  lemma {:induction false} SixfoldRest(n: nat, m: nat, r: nat)
    requires n == 4 * m + r && r < 4
    ensures 6 * n % 8 == TwiceRest(r)
  {
    DivUnique(6 * n, 3 * m + 6 * r / 8, TwiceRest(r), 8);
  }

  // The bytes of flags against the quarter bytes allowed for them.
  lemma {:induction false} SizeByRest(m: nat, r: nat, lonely: nat, extra: nat)
    requires r < 4 && lonely <= 15 && extra == (2 * r + 6 + lonely) / 8
    ensures extra <= 3
    ensures extra <= (if r == 0 then 0 else 1) <==> lonely <= 1 + TwiceRest(r)
    ensures extra <= (if r == 0 then 2 else 3)
  {
  }

  lemma {:induction false} HeightAtMost15(n: nat, h: nat)
    requires 1 <= n <= 16666 && IsHeight(n, h)
    ensures h <= 15
  {
    assert Pow2(15) == 32768;
    assert Width(n, 15) <= 1;
  }

  // With 4097 transactions that are all matched it does not hold.
  lemma {:induction false} SizeExceeded(H: (Hash, Hash) -> Hash, txids: seq<Hash>, match_: seq<bool>, h: nat)
    requires |match_| == |txids| == 4097 && (forall i :: 0 <= i < |match_| ==> match_[i]) && IsHeight(4097, h)
    ensures First(h, 0) < |txids| && !SmallEnough(Build(H, txids, match_, h, 0))
  {
    hide Build, LonelyUpTo, SmallEnough, NodeHash;
    RootSpansAll(4097, h);
    SizeBound(H, txids, match_, h);
    AllMatched(H, txids, match_, h, 0);
    assert h >= 8 by { WidthOf4097(h); }
    ManyLonely(match_, 8, h);
  }

  lemma {:induction false} WidthOf4097(k: nat)
    ensures k <= 8 ==> Width(4097, k) % 2 == 1 && Width(4097, k) > 1
  {
    assert Pow2(1) == 2 && Pow2(2) == 4 && Pow2(3) == 8 && Pow2(4) == 16 && Pow2(5) == 32 && Pow2(6) == 64;
    assert Pow2(7) == 128 && Pow2(8) == 256;
    if k <= 8 {
      assert k in {0, 1, 2, 3, 4, 5, 6, 7, 8};
    }
  }

  lemma {:induction false} ManyLonely(match_: seq<bool>, k: nat, h: nat)
    requires |match_| == 4097 && (forall i :: 0 <= i < |match_| ==> match_[i]) && k <= h && k <= 8
    ensures LonelyUpTo(match_, h) >= k
    decreases k + h
  {
    hide Width, Pow2;
    if k < h {
      ManyLonely(match_, k, h - 1);
    } else if k > 0 {
      ManyLonely(match_, k - 1, h - 1);
      WidthOf4097(h - 1);
      assert Lonely(match_, h) by { LonelyHere(match_, h); }
    }
  }

  lemma {:induction false} LonelyHere(match_: seq<bool>, h: nat)
    requires |match_| > 0 && h > 0 && Width(|match_|, h - 1) % 2 == 1 && forall i :: 0 <= i < |match_| ==> match_[i]
    ensures Lonely(match_, h)
  {
    hide Width, Pow2;
    SomeWidth(|match_|, h);
    InTree(|match_|, h, Width(|match_|, h) - 1);
    assert match_[LastFirst(|match_|, h)];
  }

  // An accepted proof whose root is that of a block with as many transactions only names
  // transactions of that block, each at its own place.
  method CheckProof(H: (Hash, Hash) -> Hash, tree: CPartialMerkleTree, vnIndex0: seq<nat>, ghost txids: seq<Hash>)
    returns (root: Hash, vMatch: seq<Hash>, vnIndex: seq<nat>)
    requires Injective(H) && txids != [] && tree.nTransactions == |txids|
    modifies tree`fBad
    ensures root == MerkleRoot(H, txids) && root != 0 ==>
      && |vnIndex| == |vnIndex0| + |vMatch|
      && forall i :: 0 <= i < |vMatch| ==>
           vnIndex[|vnIndex0| + i] < |txids| && txids[vnIndex[|vnIndex0| + i]] == vMatch[i]
    ensures root == MerkleRoot(H, txids) && root != 0 ==> forall x :: x in tree.vHash ==> OfNode(H, txids, x)
    ensures root != 0 ==> tree.nTransactions <= 16666 && |tree.vHash| <= tree.nTransactions && |tree.vHash| <= |tree.vBits|
  {
    hide Extract, NodeHash, Pow2, Width, OfNode;
    ghost var h;
    root, vMatch, vnIndex, h := tree.ExtractMatches(H, vnIndex0);
    if root == MerkleRoot(H, txids) && root != 0 {
      TopIsMerkleRoot(H, txids, h);
      ExtractIsGenuine(H, txids, tree.vBits, tree.vHash, h, 0, 0, 0);
      ExtractUsesNodes(H, txids, tree.vBits, tree.vHash, h, 0, 0, 0);
      ghost var f := Extract(H, |txids|, tree.vBits, tree.vHash, h, 0, 0, 0);
      forall i | 0 <= i < |vMatch|
        ensures vnIndex[|vnIndex0| + i] < |txids| && txids[vnIndex[|vnIndex0| + i]] == vMatch[i]
      {
        assert f.matches[i] in f.matches;
      }
    }
  }

  // Building, packing, unpacking and extracting gives the true root and exactly the
  // matched transactions in order.
  method SendAndCheck(H: (Hash, Hash) -> Hash, txids: seq<Hash>, match_: seq<bool>, vnIndex0: seq<nat>)
    returns (root: Hash, vMatch: seq<Hash>, vnIndex: seq<nat>)
    requires Injective(H) && Distinct(txids) && |match_| == |txids|
    requires 1 <= |txids| <= MAX_BLOCK_WEIGHT / MIN_TRANSACTION_WEIGHT
    ensures root == MerkleRoot(H, txids)
    ensures vMatch == Txids(MatchedIn(txids, match_, 0, |txids|))
    ensures vnIndex == vnIndex0 + Indexes(MatchedIn(txids, match_, 0, |txids|))
  {
    hide Extract, NodeHash, Pow2, Width, Build, MerkleRoot, Injective, Distinct, MatchedIn;
    var sent := new CPartialMerkleTree(H, txids, match_);
    var bytes := Pack(sent.vBits);
    var received := new CPartialMerkleTree.Deserialize(sent.nTransactions, sent.vHash, bytes);
    assert received.vBits == Padded(sent.vBits);
    ghost var h;
    root, vMatch, vnIndex, h := received.ExtractMatches(H, vnIndex0);
    RootSpansAll(|txids|, h);
    assert received.vBits[..|sent.vBits|] == sent.vBits;
    BuildIsSmall(H, txids, match_, h, 0);
    ExtractBuilt(H, txids, match_, h, 0, received.vBits, received.vHash, 0, 0);
    TopIsMerkleRoot(H, txids, h);
  }
}
