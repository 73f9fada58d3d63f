// Compact block relay (src/blockencodings.cpp, src/blockencodings.h), following the
// sections "HeaderAndShortIDs" and "BlockTransactionsRequest" of BIP 152.

module CompactBlocks {
  import opened Basics

  // A transaction; 0 stands for the null transaction.
  type Tx = nat

  // A pool entry under the hash it is listed by.
  datatype Entry = Entry(hash: nat, tx: Tx)

  datatype Prefilled = Prefilled(index: nat, tx: Tx)

  // CBlockHeaderAndShortTxIDs; header 0 stands for the null header.
  datatype Message = Message(header: nat, shortIds: seq<nat>, prefilled: seq<Prefilled>)

  datatype Status = OK | INVALID | FAILED | CHECKBLOCK_FAILED

  const MAX_UINT16 := 65535
  const MAX_BLOCK_WEIGHT := 4000000
  const MIN_SERIALIZABLE_TRANSACTION_WEIGHT := 40

  function BlockTxCount(msg: Message): nat {
    |msg.shortIds| + |msg.prefilled|
  }

  // ---- differential indexes (BlockTransactionsRequest) ----

  // What is written for each index: the gap to the one before it. A negative gap is
  // written as a value over 16 bits.
  function Gaps(indexes: seq<int>): seq<int> {
    seq(|indexes|, i requires 0 <= i < |indexes| => indexes[i] - (if i == 0 then 0 else indexes[i - 1] + 1))
  }

  // Where the next gap starts; the reader keeps this in 16 bits, so it wraps behind the last position.
  function Behind(index: int): int {
    (index + 1) % (MAX_UINT16 + 1)
  }

  // What the reader makes of the gaps.
  function Sums(gaps: seq<int>): (indexes: seq<int>)
    ensures |indexes| == |gaps|
  {
    if gaps == [] then []
    else
      var n := |gaps| - 1;
      var before := Sums(gaps[..n]);
      before + [gaps[n] + (if n == 0 then 0 else Behind(before[n - 1]))]
  }

  ghost predicate Fits(values: seq<int>) {
    forall i :: 0 <= i < |values| ==> 0 <= values[i] <= MAX_UINT16
  }

  ghost predicate Increasing(indexes: seq<int>) {
    forall i, j :: 0 <= i < j < |indexes| ==> indexes[i] < indexes[j]
  }

  method WriteIndexes(indexes: seq<int>) returns (gaps: seq<int>)
    ensures gaps == Gaps(indexes)
  {
    gaps := [];
    var i := 0;
    while i < |indexes|
      invariant 0 <= i <= |indexes| && gaps == Gaps(indexes)[..i]
    {
      gaps := gaps + [indexes[i] - (if i == 0 then 0 else indexes[i - 1] + 1)];
      i := i + 1;
    }
  }

  // The reader rejects a gap over 16 bits and a position that leaves them.
  method ReadIndexes(gaps: seq<int>) returns (indexes: Option<seq<int>>)
    ensures indexes == if Fits(gaps) && Fits(Sums(gaps)) then Some(Sums(gaps)) else None
  {
    var i := 0;
    while i < |gaps|
      invariant 0 <= i <= |gaps| && Fits(gaps[..i])
    {
      if gaps[i] < 0 || gaps[i] > MAX_UINT16 {
        return None;
      }
      i := i + 1;
    }
    indexes := AddUp(gaps);
  }

  method AddUp(gaps: seq<int>) returns (indexes: Option<seq<int>>)
    requires Fits(gaps)
    ensures indexes == if Fits(Sums(gaps)) then Some(Sums(gaps)) else None
  {
    var read, offset := [], 0;
    while |read| < |gaps|
      invariant |read| <= |gaps| && read == Sums(gaps)[..|read|] && Fits(read)
      invariant offset == if read == [] then 0 else Behind(read[|read| - 1])
    {
      var n := |read|;
      var next := gaps[n] + offset;
      SumsAt(gaps, n);
      hide Sums;
      if next > MAX_UINT16 {
        return None;
      }
      read := read + [next];
      offset := Behind(next);
    }
    assert read == Sums(gaps);
    return Some(read);
  }

  lemma {:induction false} SumsAt(gaps: seq<int>, n: nat)
    requires n < |gaps|
    ensures Sums(gaps)[n] == gaps[n] + (if n == 0 then 0 else Behind(Sums(gaps)[n - 1]))
  {
    SumsPrefix(gaps, n);
    SumsPrefix(gaps, n + 1);
    assert gaps[..n + 1][..n] == gaps[..n];
    assert Sums(gaps)[n] == Sums(gaps[..n + 1])[n];
    if n > 0 {
      assert Sums(gaps)[n - 1] == Sums(gaps[..n])[n - 1];
    }
  }

  lemma {:induction false} SumsPrefix(gaps: seq<int>, n: nat)
    requires n <= |gaps|
    ensures Sums(gaps)[..n] == Sums(gaps[..n])
  {
    if n == |gaps| {
      assert gaps[..n] == gaps;
    } else {
      var m := |gaps| - 1;
      SumsPrefix(gaps[..m], n);
      assert gaps[..m][..n] == gaps[..n];
    }
  }

  // The last 16-bit position is nowhere but at the end.
  ghost predicate NoWrap(indexes: seq<int>) {
    forall i :: 0 <= i < |indexes| - 1 ==> indexes[i] != MAX_UINT16
  }

  lemma {:induction false} SumsOfGaps(indexes: seq<int>)
    requires Fits(indexes) && NoWrap(indexes)
    ensures Sums(Gaps(indexes)) == indexes
  {
    if indexes != [] {
      var n := |indexes| - 1;
      SumsOfGaps(indexes[..n]);
      assert Gaps(indexes)[..n] == Gaps(indexes[..n]);
    }
  }

  lemma {:induction false} GapsOfSums(gaps: seq<int>)
    requires Fits(Sums(gaps))
    ensures Gaps(Sums(gaps)) == gaps <==> NoWrap(Sums(gaps))
  {
    var indexes := Sums(gaps);
    forall i: nat | i < |gaps|
      ensures Gaps(indexes)[i] == gaps[i] <==> (i > 0 ==> indexes[i - 1] != MAX_UINT16)
    {
      SumsAt(gaps, i);
    }
    if Gaps(indexes) == gaps {
      forall i | 0 <= i < |indexes| - 1
        ensures indexes[i] != MAX_UINT16
      {
        assert Gaps(indexes)[i + 1] == gaps[i + 1];
      }
    }
  }

  // Gaps fit exactly when the positions increase.
  lemma {:induction false} GapsFit(indexes: seq<int>)
    requires Fits(indexes)
    ensures Fits(Gaps(indexes)) <==> Increasing(indexes)
  {
    if Fits(Gaps(indexes)) {
      forall i, j | 0 <= i < j < |indexes|
        ensures indexes[i] < indexes[j]
      {
        GapsClimb(indexes, i, j);
      }
    } else if Increasing(indexes) {
      forall i | 0 <= i < |indexes|
        ensures 0 <= Gaps(indexes)[i] <= MAX_UINT16
      {
        assert i > 0 ==> indexes[i - 1] < indexes[i];
      }
    }
  }

  lemma {:induction false} GapsClimb(indexes: seq<int>, i: nat, j: nat)
    requires Fits(Gaps(indexes)) && i < j < |indexes|
    ensures indexes[i] < indexes[j]
    decreases j
  {
    assert Gaps(indexes)[j] >= 0;
    if i < j - 1 {
      GapsClimb(indexes, i, j - 1);
    }
  }

  // A request survives the wire exactly when its positions increase, and is refused otherwise.
  method SendIndexes(indexes: seq<int>) returns (received: Option<seq<int>>)
    requires Fits(indexes)
    ensures received == if Increasing(indexes) then Some(indexes) else None
  {
    var gaps := WriteIndexes(indexes);
    received := ReadIndexes(gaps);
    GapsFit(indexes);
    if Increasing(indexes) {
      IncreasingHasNoWrap(indexes);
      SumsOfGaps(indexes);
    }
  }

  function Total(gaps: seq<int>): int {
    if gaps == [] then 0 else Total(gaps[..|gaps| - 1]) + gaps[|gaps| - 1]
  }

  lemma {:induction false} PlainSum(gaps: seq<int>)
    requires gaps != [] && Fits(gaps) && Fits(Sums(gaps))
    ensures NoWrap(Sums(gaps)) ==> Sums(gaps)[|gaps| - 1] == Total(gaps) + |gaps| - 1
    ensures NoWrap(Sums(gaps)) <==> Total(gaps) + |gaps| - 1 <= MAX_UINT16
  {
    var n := |gaps| - 1;
    var before := gaps[..n];
    SumsPrefix(gaps, n);
    assert Fits(before) && Fits(Sums(before)) && gaps[n] >= 0;
    if n > 0 {
      PlainSum(before);
      assert Sums(gaps)[n - 1] == Sums(before)[n - 1];
      assert NoWrap(Sums(gaps)) <==> NoWrap(Sums(before)) && Sums(before)[n - 1] != MAX_UINT16;
      assert Sums(gaps)[n] <= MAX_UINT16;
    }
  }

  // What is read increases, and would be written as it came, exactly if the gaps do not go
  // past the last 16-bit position; a request that does is accepted all the same.
  lemma {:induction false} ReadIsCanonical(gaps: seq<int>)
    requires Fits(gaps) && Fits(Sums(gaps))
    ensures Increasing(Sums(gaps)) <==> Total(gaps) + |gaps| <= MAX_UINT16 + 1
    ensures Gaps(Sums(gaps)) == gaps <==> Total(gaps) + |gaps| <= MAX_UINT16 + 1
    ensures NoWrap(Sums(gaps)) <==> Total(gaps) + |gaps| <= MAX_UINT16 + 1
  {
    var indexes := Sums(gaps);
    GapsOfSums(gaps);
    GapsFit(indexes);
    if gaps != [] {
      PlainSum(gaps);
    }
    if Increasing(indexes) {
      IncreasingHasNoWrap(indexes);
    }
  }

  lemma {:induction false} IncreasingHasNoWrap(indexes: seq<int>)
    requires Fits(indexes) && Increasing(indexes)
    ensures NoWrap(indexes)
  {
    forall i | 0 <= i < |indexes| - 1
      ensures indexes[i] != MAX_UINT16
    {
      assert indexes[i] < indexes[i + 1];
    }
  }

  lemma {:induction false} WrappedRequestIsRead()
    ensures Fits([MAX_UINT16, 0]) && Sums([MAX_UINT16, 0]) == [MAX_UINT16, 0]
    ensures !Increasing([MAX_UINT16, 0]) && Gaps([MAX_UINT16, 0]) != [MAX_UINT16, 0]
  {
    var gaps := [MAX_UINT16, 0];
    SumsAt(gaps, 0);
    SumsAt(gaps, 1);
    assert gaps[0] > gaps[1];
    assert Gaps(gaps)[1] == -65536;
  }

  // ---- the slots of a block ----

  ghost function FreeBefore(slots: seq<Option<Tx>>, p: nat): nat
    requires p <= |slots|
  {
    if p == 0 then 0 else FreeBefore(slots, p - 1) + (if slots[p - 1].None? then 1 else 0)
  }

  ghost function Free(slots: seq<Option<Tx>>): nat {
    FreeBefore(slots, |slots|)
  }

  function Weight(x: Option<Tx>): int {
    if x.None? then 1 else 0
  }

  lemma {:induction false} FreeUpdate(slots: seq<Option<Tx>>, p: nat, q: nat, x: Option<Tx>)
    requires p < |slots| && q <= |slots|
    ensures FreeBefore(slots[p := x], q) ==
      FreeBefore(slots, q) + (if p < q then Weight(x) - Weight(slots[p]) else 0)
  {
    if q > 0 {
      FreeUpdate(slots, p, q - 1, x);
    }
  }

  lemma {:induction false} FreeMonotone(slots: seq<Option<Tx>>, p: nat, q: nat)
    requires p <= q <= |slots|
    ensures FreeBefore(slots, p) <= FreeBefore(slots, q) <= FreeBefore(slots, p) + (q - p)
    decreases q - p
  {
    if p < q {
      FreeMonotone(slots, p, q - 1);
    }
  }

  lemma {:induction false} AllFree(slots: seq<Option<Tx>>, p: nat)
    requires p <= |slots| && forall i :: 0 <= i < p ==> slots[i].None?
    ensures FreeBefore(slots, p) == p
  {
    if p > 0 {
      AllFree(slots, p - 1);
    }
  }

  lemma {:induction false} NoneFree(slots: seq<Option<Tx>>, p: nat)
    requires p < |slots| && Free(slots) == 0
    ensures slots[p].Some?
  {
    FreeMonotone(slots, p + 1, |slots|);
  }

  // ---- prefilled transactions ----

  // The slot of prefilled transaction i; its index is an offset from the one before it.
  function Position(prefilled: seq<Prefilled>, i: nat): int
    requires i < |prefilled|
  {
    prefilled[i].index + (if i == 0 then 0 else Position(prefilled, i - 1) + 1)
  }

  // Prefilled transactions written with the gaps between their positions are read at those positions.
  lemma {:induction false} PrefilledPositions(positions: seq<int>, prefilled: seq<Prefilled>, i: nat)
    requires |prefilled| == |positions| && forall j :: 0 <= j < |positions| ==> prefilled[j].index == Gaps(positions)[j]
    requires i < |positions|
    ensures Position(prefilled, i) == positions[i]
  {
    if i > 0 {
      PrefilledPositions(positions, prefilled, i - 1);
    }
  }

  ghost predicate PrefilledOk(msg: Message, i: nat)
    requires i < |msg.prefilled|
  {
    && msg.prefilled[i].tx != 0
    && Position(msg.prefilled, i) <= MAX_UINT16 && Position(msg.prefilled, i) <= |msg.shortIds| + i
  }

  ghost predicate AllPrefilledOk(msg: Message, n: nat) {
    n <= |msg.prefilled| && forall i :: 0 <= i < n ==> PrefilledOk(msg, i)
  }

  // Neither empty nor larger than a block can be, and every prefilled slot is in range.
  ghost predicate WellFormed(msg: Message) {
    && msg.header != 0 && BlockTxCount(msg) > 0
    && BlockTxCount(msg) <= MAX_BLOCK_WEIGHT / MIN_SERIALIZABLE_TRANSACTION_WEIGHT
    && AllPrefilledOk(msg, |msg.prefilled|)
  }

  // The first n prefilled transactions are in their slots and all other slots are free.
  ghost predicate Placed(msg: Message, n: nat, slots: seq<Option<Tx>>) {
    && n <= |msg.prefilled| && |slots| == BlockTxCount(msg) && Free(slots) == |slots| - n
    && (forall i :: 0 <= i < n ==>
          0 <= Position(msg.prefilled, i) < |slots| && slots[Position(msg.prefilled, i)] == Some(msg.prefilled[i].tx))
    && (forall p :: 0 <= p < |slots| && slots[p].Some? ==>
          exists i :: 0 <= i < n && Position(msg.prefilled, i) == p)
  }

  lemma {:induction false} NonePrefilled(msg: Message)
    ensures AllPrefilledOk(msg, 0)
  {
  }

  lemma {:induction false} PrefilledNext(msg: Message, i: nat)
    requires i < |msg.prefilled| && AllPrefilledOk(msg, i)
    ensures var p := msg.prefilled[i].index + (if i == 0 then 0 else Position(msg.prefilled, i - 1) + 1);
            && Position(msg.prefilled, i) == p
            && (msg.prefilled[i].tx != 0 && p <= MAX_UINT16 && p <= |msg.shortIds| + i ==> AllPrefilledOk(msg, i + 1))
            && (msg.prefilled[i].tx == 0 || p > MAX_UINT16 || p > |msg.shortIds| + i ==>
                  !AllPrefilledOk(msg, |msg.prefilled|))
  {
    if !PrefilledOk(msg, i) {
      assert !AllPrefilledOk(msg, |msg.prefilled|);
    }
  }

  lemma {:induction false} PositionsClimb(prefilled: seq<Prefilled>, i: nat, j: nat)
    requires i < j < |prefilled|
    ensures Position(prefilled, i) < Position(prefilled, j)
  {
    if i < j - 1 {
      PositionsClimb(prefilled, i, j - 1);
    }
  }

  lemma {:induction false} PlaceNext(msg: Message, n: nat, slots: seq<Option<Tx>>)
    requires n < |msg.prefilled| && Placed(msg, n, slots) && 0 <= Position(msg.prefilled, n) < |slots|
    ensures Placed(msg, n + 1, slots[Position(msg.prefilled, n) := Some(msg.prefilled[n].tx)])
  {
    var p := Position(msg.prefilled, n);
    forall i | 0 <= i < n
      ensures Position(msg.prefilled, i) < p
    {
      PositionsClimb(msg.prefilled, i, n);
    }
    assert slots[p].None?;
    FreeUpdate(slots, p, |slots|, Some(msg.prefilled[n].tx));
    assert Position(msg.prefilled, n) == p;
  }

  function Blank(n: nat): seq<Option<Tx>> {
    seq(n, i => None)
  }

  lemma {:induction false} NonePlaced(msg: Message)
    ensures Placed(msg, 0, Blank(BlockTxCount(msg))) && |Blank(BlockTxCount(msg))| == BlockTxCount(msg)
  {
    AllFree(Blank(BlockTxCount(msg)), BlockTxCount(msg));
  }

  method PlacePrefilled(msg: Message) returns (ok: bool, slots: seq<Option<Tx>>)
    ensures ok <==> AllPrefilledOk(msg, |msg.prefilled|)
    ensures ok ==> Placed(msg, |msg.prefilled|, slots)
  {
    hide Placed, Free, FreeBefore, Position, PrefilledOk, AllPrefilledOk, Blank;
    slots := Blank(BlockTxCount(msg));
    NonePlaced(msg);
    var last, i := -1, 0;
    assert AllPrefilledOk(msg, 0) by { NonePrefilled(msg); }
    while i < |msg.prefilled|
      invariant 0 <= i <= |msg.prefilled| && Placed(msg, i, slots) && |slots| == BlockTxCount(msg)
      invariant last >= -1 && last == if i == 0 then -1 else Position(msg.prefilled, i - 1)
      invariant AllPrefilledOk(msg, i)
    {
      last := last + msg.prefilled[i].index + 1;
      PrefilledNext(msg, i);
      if msg.prefilled[i].tx == 0 || last > MAX_UINT16 || last > |msg.shortIds| + i {
        return false, slots;
      }
      PlaceNext(msg, i, slots);
      slots := slots[last := Some(msg.prefilled[i].tx)];
      i := i + 1;
    }
    ok := true;
  }

  // ---- short ids ----

  ghost predicate Distinct(s: seq<nat>) {
    forall i, j :: 0 <= i < j < |s| ==> s[i] != s[j]
  }

  // Each short id is mapped to a free slot of its own: the k-th id to the k-th free slot.
  ghost predicate Mapped(shortIds: seq<nat>, slots: seq<Option<Tx>>, where: map<nat, nat>) {
    && (forall k :: 0 <= k < |shortIds| ==>
          && shortIds[k] in where && where[shortIds[k]] < |slots|
          && slots[where[shortIds[k]]].None? && FreeBefore(slots, where[shortIds[k]]) == k)
    && (forall id :: id in where ==> exists k :: 0 <= k < |shortIds| && shortIds[k] == id)
  }

  lemma {:induction false} MapNext(shortIds: seq<nat>, slots: seq<Option<Tx>>, where: map<nat, nat>, n: nat, p: nat)
    requires n < |shortIds| && Mapped(shortIds[..n], slots, where) && shortIds[n] !in where
    requires p < |slots| && slots[p].None? && FreeBefore(slots, p) == n
    ensures Mapped(shortIds[..n + 1], slots, where[shortIds[n] := p])
  {
    var where', ids := where[shortIds[n] := p], shortIds[..n + 1];
    forall k | 0 <= k < |ids|
      ensures ids[k] in where' && where'[ids[k]] < |slots|
      ensures slots[where'[ids[k]]].None? && FreeBefore(slots, where'[ids[k]]) == k
    {
      if k < n {
        assert shortIds[..n][k] in where;
      }
    }
    forall id | id in where'
      ensures exists k :: 0 <= k < |ids| && ids[k] == id
    {
      if id in where {
        var k :| 0 <= k < n && shortIds[..n][k] == id;
        assert ids[k] == id;
      } else {
        assert ids[n] == id;
      }
    }
  }

  // ---- the 16-bit offset between short ids and slots ----

  // The offset after n increments.
  ghost function Offset(offset: nat, n: nat): nat {
    (offset + n) % (MAX_UINT16 + 1)
  }

  ghost predicate FilledAt(slots: seq<Option<Tx>>, p: nat) {
    p < |slots| && slots[p].Some?
  }

  // The loop that looks for the slot of id i ends after n increments.
  ghost predicate StopsAfter(slots: seq<Option<Tx>>, i: nat, offset: nat, n: nat) {
    && i + Offset(offset, n) < |slots| && slots[i + Offset(offset, n)].None?
    && forall m: nat :: m < n ==> FilledAt(slots, i + Offset(offset, m))
  }

  // The offset once id i has its slot, if the loops up to there end.
  ghost function OffsetAt(slots: seq<Option<Tx>>, i: nat): Option<nat> {
    var start := if i == 0 then Some(0) else OffsetAt(slots, i - 1);
    if start.Some? && Stops(slots, i, start.value) then Some(Offset(start.value, Increments(slots, i, start.value)))
    else None
  }

  ghost predicate Stops(slots: seq<Option<Tx>>, i: nat, offset: nat) {
    exists n :: StopsAfter(slots, i, offset, n)
  }

  ghost function Increments(slots: seq<Option<Tx>>, i: nat, offset: nat): (n: nat)
    requires Stops(slots, i, offset)
    ensures StopsAfter(slots, i, offset, n)
  {
    var n :| StopsAfter(slots, i, offset, n);
    n
  }

  lemma {:induction false} StopsOnce(slots: seq<Option<Tx>>, i: nat, offset: nat, m: nat, n: nat)
    requires StopsAfter(slots, i, offset, m) && StopsAfter(slots, i, offset, n)
    ensures m == n
  {
    assert !FilledAt(slots, i + Offset(offset, m)) && !FilledAt(slots, i + Offset(offset, n));
  }

  lemma {:induction false} OffsetStep(slots: seq<Option<Tx>>, i: nat, offset: nat, n: nat)
    requires Some(offset) == if i == 0 then Some(0) else OffsetAt(slots, i - 1)
    requires StopsAfter(slots, i, offset, n)
    ensures OffsetAt(slots, i) == Some(Offset(offset, n))
  {
    assert Stops(slots, i, offset);
    StopsOnce(slots, i, offset, Increments(slots, i, offset), n);
  }

  // No slot has more filled slots before it than there are.
  lemma {:induction false} FilledBefore(slots: seq<Option<Tx>>, p: nat)
    requires p <= |slots|
    ensures p - FreeBefore(slots, p) <= |slots| - Free(slots)
  {
    FreeMonotone(slots, p, |slots|);
  }

  lemma {:induction false} FreeSlotAhead(slots: seq<Option<Tx>>, from: nat) returns (p: nat)
    requires from <= |slots| && FreeBefore(slots, from) < Free(slots)
    ensures from <= p < |slots| && slots[p].None? && FreeBefore(slots, p) == FreeBefore(slots, from)
    ensures forall q :: from <= q < p ==> slots[q].Some?
    decreases |slots| - from
  {
    p := from;
    if slots[from].Some? {
      p := FreeSlotAhead(slots, from + 1);
    }
  }

  // With at most 65535 slots filled the offset never wraps, and id i gets the i-th free slot.
  lemma {:induction false} OffsetFinds(slots: seq<Option<Tx>>, i: nat)
    requires i < Free(slots) && |slots| - Free(slots) <= MAX_UINT16
    ensures OffsetAt(slots, i).Some?
    ensures var p := i + OffsetAt(slots, i).value;
            p < |slots| && slots[p].None? && FreeBefore(slots, p) == i
  {
    hide FreeBefore, Free, OffsetAt, StopsAfter, Offset;
    var offset := 0;
    if i > 0 {
      OffsetFinds(slots, i - 1);
      offset := OffsetAt(slots, i - 1).value;
      FreeBehind(slots, i - 1 + offset);
    } else {
      AllFree(slots, 0);
    }
    var p := FreeSlotAhead(slots, i + offset);
    FilledBefore(slots, p);
    StopsWithoutWrap(slots, i, offset, p);
    OffsetStep(slots, i, offset, p - i - offset);
  }

  lemma {:induction false} StopsWithoutWrap(slots: seq<Option<Tx>>, i: nat, offset: nat, p: nat)
    requires i + offset <= p < |slots| && p - i <= MAX_UINT16 && slots[p].None?
    requires forall q :: i + offset <= q < p ==> slots[q].Some?
    ensures StopsAfter(slots, i, offset, p - i - offset) && Offset(offset, p - i - offset) == p - i
  {
    forall m: nat | m < p - i - offset
      ensures FilledAt(slots, i + Offset(offset, m))
    {
      assert i + Offset(offset, m) == i + offset + m;
    }
  }

  lemma {:induction false} PositionAtLeast(prefilled: seq<Prefilled>, i: nat, n: nat)
    requires i <= n < |prefilled|
    ensures Position(prefilled, i) >= i && Position(prefilled, n) >= Position(prefilled, i) + (n - i)
  {
    if i < n {
      PositionAtLeast(prefilled, i, n - 1);
    } else if n > 0 {
      PositionAtLeast(prefilled, n - 1, n - 1);
    }
  }

  // Positions are 16-bit numbers, so if there are 65536 of them they are all there are.
  lemma {:induction false} AllLowSlotsFilled(msg: Message, slots: seq<Option<Tx>>, k: nat)
    requires AllPrefilledOk(msg, |msg.prefilled|) && Placed(msg, |msg.prefilled|, slots)
    ensures |msg.prefilled| <= MAX_UINT16 + 1
    ensures |msg.prefilled| == MAX_UINT16 + 1 && k <= MAX_UINT16 ==> FilledAt(slots, k)
  {
    var n := |msg.prefilled| - 1;
    if n >= 0 {
      PositionAtLeast(msg.prefilled, n, n);
      assert PrefilledOk(msg, n);
      if n == MAX_UINT16 && k <= MAX_UINT16 {
        PositionAtLeast(msg.prefilled, k, n);
        assert Position(msg.prefilled, k) == k;
      }
    }
  }

  // The loops end if and only if not all 65536 low slots are prefilled when there are short
  // ids; otherwise the first of them goes round for ever.
  lemma {:induction false} OffsetLoopsEnd(msg: Message, slots: seq<Option<Tx>>)
    requires WellFormed(msg) && Placed(msg, |msg.prefilled|, slots)
    ensures AllFound(slots, |msg.shortIds|) <==> !(|msg.prefilled| == MAX_UINT16 + 1 && msg.shortIds != [])
    ensures |msg.prefilled| == MAX_UINT16 + 1 ==> forall n :: FilledAt(slots, Offset(0, n))
  {
    hide Free, FreeBefore, OffsetAt, FilledAt, Offset, Placed, AllFound, AllPrefilledOk;
    PlacedFree(msg, slots);
    AllLowSlotsFilled(msg, slots, 0);
    if |msg.prefilled| == MAX_UINT16 + 1 {
      forall n: nat
        ensures FilledAt(slots, Offset(0, n))
      {
        OffsetIsLow(n);
        AllLowSlotsFilled(msg, slots, Offset(0, n));
      }
      NeverFound(slots, |msg.shortIds|);
    } else {
      OthersFound(slots, |msg.shortIds|);
    }
  }

  // Each of the first n ids finds its slot.
  ghost predicate AllFound(slots: seq<Option<Tx>>, n: nat) {
    forall i: nat :: i < n ==> OffsetAt(slots, i).Some?
  }

  lemma {:induction false} OffsetIsLow(n: nat)
    ensures Offset(0, n) <= MAX_UINT16
  {
  }

  lemma {:induction false} NeverFound(slots: seq<Option<Tx>>, n: nat)
    requires forall m: nat :: FilledAt(slots, Offset(0, m))
    ensures OffsetAt(slots, 0).None? && (AllFound(slots, n) <==> n == 0)
  {
    hide Offset;
    forall m: nat
      ensures !StopsAfter(slots, 0, 0, m)
    {
      assert FilledAt(slots, Offset(0, m));
    }
    assert OffsetAt(slots, 0).None?;
  }

  lemma {:induction false} OthersFound(slots: seq<Option<Tx>>, n: nat)
    requires n <= Free(slots) && |slots| - Free(slots) <= MAX_UINT16
    ensures AllFound(slots, n)
  {
    hide OffsetAt, Free;
    forall i: nat | i < n
      ensures OffsetAt(slots, i).Some?
    {
      OffsetFinds(slots, i);
    }
  }

  // Such a message: 65536 prefilled transactions and one short id.
  lemma {:induction false} EndlessMessage(slots: seq<Option<Tx>>) returns (msg: Message)
    ensures WellFormed(msg) && |msg.prefilled| == MAX_UINT16 + 1 && |msg.shortIds| == 1
    ensures Placed(msg, |msg.prefilled|, slots) ==> OffsetAt(slots, 0).None?
  {
    msg := Message(1, [0], seq(MAX_UINT16 + 1, i => Prefilled(0, 1)));
    forall i: nat | i < |msg.prefilled|
      ensures PrefilledOk(msg, i)
    {
      PositionOfNoGaps(msg.prefilled, i);
    }
    hide Placed, OffsetAt, Offset, FilledAt;
    if Placed(msg, |msg.prefilled|, slots) {
      OffsetLoopsEnd(msg, slots);
      NeverFound(slots, 1);
    }
  }

  lemma {:induction false} PositionOfNoGaps(prefilled: seq<Prefilled>, i: nat)
    requires i < |prefilled| && forall j :: 0 <= j < |prefilled| ==> prefilled[j].index == 0
    ensures Position(prefilled, i) == i
  {
    if i > 0 {
      PositionOfNoGaps(prefilled, i - 1);
    }
  }

  method NextOffset(slots: seq<Option<Tx>>, i: nat, start: nat) returns (offset: nat)
    requires i < Free(slots) && |slots| - Free(slots) <= MAX_UINT16
    requires i + start <= |slots| && FreeBefore(slots, i + start) == i
    ensures i + offset < |slots| && slots[i + offset].None? && FreeBefore(slots, i + offset) == i
  {
    offset := start;
    while slots[i + offset].Some?
      invariant i + offset < |slots| && FreeBefore(slots, i + offset) == i
      decreases |slots| - (i + offset)
    {
      FilledBefore(slots, i + offset + 1);
      offset := Behind(offset);
    }
  }

  // What 16 bits keep of a map of slots.
  ghost function Cut(where: map<nat, nat>): map<nat, nat> {
    map id | id in where :: where[id] % (MAX_UINT16 + 1)
  }

  // crowded(i) is the test of the hash table's bucket after insertion i. Slots are kept in 16
  // bits, so the map is right if and only if they fit into them.
  method MapShortIds(msg: Message, slots: seq<Option<Tx>>, crowded: nat -> bool)
    returns (ok: bool, where: map<nat, nat>)
    requires AllPrefilledOk(msg, |msg.prefilled|) && Placed(msg, |msg.prefilled|, slots)
    requires |msg.prefilled| <= MAX_UINT16 || msg.shortIds == []
    ensures ok <==> Distinct(msg.shortIds) && forall i :: 0 <= i < |msg.shortIds| ==> !crowded(i)
    ensures forall id :: id in where ==> where[id] < |slots|
    ensures ok ==> |where| == |msg.shortIds| && exists plain :: Mapped(msg.shortIds, slots, plain) && where == Cut(plain)
    ensures ok ==> (Mapped(msg.shortIds, slots, where) <==> |slots| <= MAX_UINT16 + 1)
  {
    hide Mapping, Distinct, Mapped, FreeBefore, Free, Placed, AllPrefilledOk, Cut, Keeps;
    PlacedFree(msg, slots);
    var ids := msg.shortIds;
    where := map[];
    ghost var plain: map<nat, nat> := map[];
    var i, offset := 0, 0;
    NoneMapped(ids, slots);
    NothingCut(|slots|);
    while i < |ids|
      invariant 0 <= i <= |ids| && i + offset <= |slots| && Mapping(ids, slots, plain, i, i + offset)
      invariant forall j :: 0 <= j < i ==> !crowded(j)
      invariant Keeps(where, plain, |slots|)
    {
      assert FreeBefore(slots, i + offset) == i by { MappingMeans(ids, slots, plain, i, i + offset); }
      offset := NextOffset(slots, i, offset);
      MappingNext(ids, slots, plain, i, i + offset);
      CutNext(where, plain, ids[i], i + offset, |slots|);
      plain, where := plain[ids[i] := i + offset], where[ids[i] := (i + offset) % (MAX_UINT16 + 1)];
      if crowded(i) {
        KeepsMeans(where, plain, |slots|);
        return false, where;
      }
      i := i + 1;
    }
    assert ids[..i] == ids;
    MappingMeans(ids, slots, plain, i, i + offset);
    KeepsMeans(where, plain, |slots|);
    ok := |where| == |ids|;
    if ok {
      CutIsRight(msg, slots, plain);
    }
  }

  // The map kept is the 16-bit form of plain, and its slots are among the first n.
  ghost predicate Keeps(where: map<nat, nat>, plain: map<nat, nat>, n: nat) {
    where == Cut(plain) && forall id :: id in where ==> where[id] < n
  }

  lemma {:induction false} KeepsMeans(where: map<nat, nat>, plain: map<nat, nat>, n: nat)
    requires Keeps(where, plain, n)
    ensures where == Cut(plain) && |where| == |plain| && forall id :: id in where ==> where[id] < n
  {
    assert where.Keys == plain.Keys;
    assert |where| == |where.Keys| == |plain|;
  }

  lemma {:induction false} NothingCut(n: nat)
    ensures Keeps(map[], map[], n)
  {
  }

  lemma {:induction false} CutNext(where: map<nat, nat>, plain: map<nat, nat>, id: nat, p: nat, n: nat)
    requires Keeps(where, plain, n) && p < n
    ensures Keeps(where[id := p % (MAX_UINT16 + 1)], plain[id := p], n)
  {
    assert p % (MAX_UINT16 + 1) <= p;
  }

  // Behind the last 16-bit slot nothing is prefilled, so the last id has the last slot.
  lemma {:induction false} LastIdHasLastSlot(msg: Message, slots: seq<Option<Tx>>, plain: map<nat, nat>)
    requires AllPrefilledOk(msg, |msg.prefilled|) && Placed(msg, |msg.prefilled|, slots) && Mapped(msg.shortIds, slots, plain)
    requires |slots| > MAX_UINT16 + 1
    ensures msg.shortIds != [] && msg.shortIds[|msg.shortIds| - 1] in plain
    ensures plain[msg.shortIds[|msg.shortIds| - 1]] == |slots| - 1
  {
    var last := |slots| - 1;
    AllLowSlotsFilled(msg, slots, 0);
    PlacedFree(msg, slots);
    forall i | 0 <= i < |msg.prefilled|
      ensures Position(msg.prefilled, i) != last
    {
      assert PrefilledOk(msg, i);
    }
    FreeBehind(slots, last);
    hide Placed, FreeBefore;
    SameSlot(slots, last, plain[msg.shortIds[|msg.shortIds| - 1]]);
  }

  lemma {:induction false} CutIsRight(msg: Message, slots: seq<Option<Tx>>, plain: map<nat, nat>)
    requires AllPrefilledOk(msg, |msg.prefilled|) && Placed(msg, |msg.prefilled|, slots) && Mapped(msg.shortIds, slots, plain)
    ensures Mapped(msg.shortIds, slots, Cut(plain)) <==> |slots| <= MAX_UINT16 + 1
  {
    hide Placed, AllPrefilledOk, FreeBefore;
    if |slots| <= MAX_UINT16 + 1 {
      assert Cut(plain) == plain by { SmallNotCut(msg.shortIds, slots, plain); }
    } else {
      LastIdHasLastSlot(msg, slots, plain);
      var id := msg.shortIds[|msg.shortIds| - 1];
      if Mapped(msg.shortIds, slots, Cut(plain)) {
        SameSlot(slots, plain[id], Cut(plain)[id]);
      }
    }
  }

  lemma {:induction false} SmallNotCut(ids: seq<nat>, slots: seq<Option<Tx>>, plain: map<nat, nat>)
    requires Mapped(ids, slots, plain) && |slots| <= MAX_UINT16 + 1
    ensures Cut(plain) == plain
  {
    hide FreeBefore;
    forall id | id in plain
      ensures plain[id] < |slots|
    {
      var k :| 0 <= k < |ids| && ids[k] == id;
      assert plain[ids[k]] < |slots|;
    }
  }

  // With 65537 transactions the slot of the last id is kept as slot 0.
  lemma {:induction false} LastSlotWraps(msg: Message, slots: seq<Option<Tx>>, plain: map<nat, nat>)
    requires AllPrefilledOk(msg, |msg.prefilled|) && Placed(msg, |msg.prefilled|, slots) && Mapped(msg.shortIds, slots, plain)
    requires BlockTxCount(msg) == MAX_UINT16 + 2
    ensures msg.shortIds != [] && msg.shortIds[|msg.shortIds| - 1] in plain
    ensures plain[msg.shortIds[|msg.shortIds| - 1]] == MAX_UINT16 + 1 && Cut(plain)[msg.shortIds[|msg.shortIds| - 1]] == 0
  {
    PlacedFree(msg, slots);
    LastIdHasLastSlot(msg, slots, plain);
  }

  // The first i short ids have been mapped, to slots before p.
  ghost predicate Mapping(ids: seq<nat>, slots: seq<Option<Tx>>, where: map<nat, nat>, i: nat, p: nat) {
    && i <= |ids| && p <= |slots| && FreeBefore(slots, p) == i
    && |where| <= i && (|where| == i <==> Distinct(ids[..i]))
    && (Distinct(ids[..i]) ==> Mapped(ids[..i], slots, where))
    && forall j :: 0 <= j < i ==> ids[j] in where
  }

  lemma {:induction false} MappingMeans(ids: seq<nat>, slots: seq<Option<Tx>>, where: map<nat, nat>, i: nat, p: nat)
    requires Mapping(ids, slots, where, i, p)
    ensures p <= |slots| && FreeBefore(slots, p) == i && i <= |ids|
    ensures (|where| == i <==> Distinct(ids[..i])) && (Distinct(ids[..i]) ==> Mapped(ids[..i], slots, where))
  {
    hide Distinct, Mapped, FreeBefore;
  }

  lemma {:induction false} MappingNext(ids: seq<nat>, slots: seq<Option<Tx>>, where: map<nat, nat>, i: nat, p: nat)
    requires i < |ids| && p < |slots| && slots[p].None? && FreeBefore(slots, p) == i
    requires exists q :: Mapping(ids, slots, where, i, q)
    ensures Mapping(ids, slots, where[ids[i] := p], i + 1, p + 1)
  {
    hide Distinct, Mapped, FreeBefore;
    FreeBehind(slots, p);
    DistinctNext(ids, i, where, slots);
    if ids[i] !in where && Distinct(ids[..i]) {
      MapNext(ids, slots, where, i, p);
    }
  }

  lemma {:induction false} FreeBehind(slots: seq<Option<Tx>>, p: nat)
    requires p < |slots| && slots[p].None?
    ensures FreeBefore(slots, p + 1) == FreeBefore(slots, p) + 1
  {
  }

  lemma {:induction false} NoneMapped(ids: seq<nat>, slots: seq<Option<Tx>>)
    ensures Mapping(ids, slots, map[], 0, 0)
  {
    assert ids[..0] == [];
  }

  lemma {:induction false} DistinctNext(ids: seq<nat>, n: nat, where: map<nat, nat>, slots: seq<Option<Tx>>)
    requires n < |ids| && forall j :: 0 <= j < n ==> ids[j] in where
    requires Distinct(ids[..n]) ==> Mapped(ids[..n], slots, where)
    ensures Distinct(ids[..n + 1]) <==> Distinct(ids[..n]) && ids[n] !in where
  {
    if ids[n] in where && Distinct(ids[..n]) {
      var k :| 0 <= k < n && ids[..n][k] == ids[n];
      assert ids[..n + 1][k] == ids[..n + 1][n];
    }
    if Distinct(ids[..n + 1]) {
      forall i, j | 0 <= i < j < n
        ensures ids[..n][i] != ids[..n][j]
      {
        assert ids[..n + 1][i] != ids[..n + 1][j];
      }
    }
  }

  // ---- looking for transactions ----

  ghost predicate Matches(shortId: nat -> nat, e: Entry, id: nat) {
    shortId(e.hash) == id
  }

  // What a scanned slot says about the entries looked at so far: a transaction in it is
  // one of those that match; a slot that was never hit has no match; and one that was hit
  // and is empty again has two.
  ghost predicate SlotOk(shortId: nat -> nat, seen: seq<Entry>, id: nat, slot: Option<Tx>, hit: bool) {
    && (slot.Some? ==> hit && exists i :: 0 <= i < |seen| && Matches(shortId, seen[i], id) && seen[i].tx == slot.value)
    && (!hit ==> forall i :: 0 <= i < |seen| ==> !Matches(shortId, seen[i], id))
    && (hit && slot.None? ==> Twice(shortId, seen, id))
  }

  ghost predicate Twice(shortId: nat -> nat, seen: seq<Entry>, id: nat) {
    exists i, j :: 0 <= i < j < |seen| && Matches(shortId, seen[i], id) && Matches(shortId, seen[j], id)
  }

  // The whole table while it is scanned, against the slots after the prefilled ones.
  ghost predicate Scanned(shortId: nat -> nat, where: map<nat, nat>, slots0: seq<Option<Tx>>, seen: seq<Entry>,
                          slots: seq<Option<Tx>>, have: seq<bool>) {
    && |slots| == |have| == |slots0|
    && (forall id :: id in where ==> where[id] < |slots| && SlotOk(shortId, seen, id, slots[where[id]], have[where[id]]))
    && (forall p :: 0 <= p < |slots| && slots0[p].Some? ==> slots[p] == slots0[p])
    && (forall p :: 0 <= p < |slots| && slots0[p].None? && p !in where.Values ==> slots[p].None?)
  }

  // Different ids have different slots, all of them free before the scan.
  ghost predicate Apart(where: map<nat, nat>, slots: seq<Option<Tx>>) {
    && (forall id :: id in where ==> where[id] < |slots| && slots[where[id]].None?)
    && (forall a, b :: a in where && b in where && a != b ==> where[a] != where[b])
  }

  lemma {:induction false} MappedApart(shortIds: seq<nat>, slots: seq<Option<Tx>>, where: map<nat, nat>)
    requires Mapped(shortIds, slots, where)
    ensures Apart(where, slots)
  {
    forall a, b | a in where && b in where && a != b
      ensures where[a] != where[b]
    {
      var i :| 0 <= i < |shortIds| && shortIds[i] == a;
      var j :| 0 <= j < |shortIds| && shortIds[j] == b;
      assert FreeBefore(slots, where[shortIds[i]]) == i && FreeBefore(slots, where[shortIds[j]]) == j;
    }
  }

  // One more entry seen, by which at most the slot of its own id changes.
  lemma {:induction false} ScanStep(shortId: nat -> nat, where: map<nat, nat>, slots0: seq<Option<Tx>>, seen: seq<Entry>,
                                    slots: seq<Option<Tx>>, have: seq<bool>, e: Entry, x: Option<Tx>)
    requires Apart(where, slots0) && Scanned(shortId, where, slots0, seen, slots, have) && shortId(e.hash) in where
    requires var p := where[shortId(e.hash)];
             if have[p] then x == slots[p] || x.None? else x == Some(e.tx)
    ensures var p := where[shortId(e.hash)];
            Scanned(shortId, where, slots0, seen + [e], slots[p := x], have[p := true])
  {
    var p := where[shortId(e.hash)];
    forall id | id in where
      ensures SlotOk(shortId, seen + [e], id, slots[p := x][where[id]], have[p := true][where[id]])
    {
      assert SlotOk(shortId, seen, id, slots[where[id]], have[where[id]]);
      OneMoreSeen(shortId, seen, id, slots[where[id]], have[where[id]], e, x);
    }
  }

  lemma {:induction false} OneMoreSeen(shortId: nat -> nat, seen: seq<Entry>, id: nat, slot: Option<Tx>, hit: bool, e: Entry, x: Option<Tx>)
    requires SlotOk(shortId, seen, id, slot, hit)
    ensures shortId(e.hash) != id ==> SlotOk(shortId, seen + [e], id, slot, hit)
    ensures shortId(e.hash) == id && (if hit then x == slot || x.None? else x == Some(e.tx)) ==>
              SlotOk(shortId, seen + [e], id, x, true)
  {
    var seen', n := seen + [e], |seen|;
    assert forall i :: 0 <= i < n ==> seen'[i] == seen[i];
    if slot.Some? {
      var i :| 0 <= i < n && Matches(shortId, seen[i], id) && seen[i].tx == slot.value;
      assert Matches(shortId, seen'[i], id) && seen'[i].tx == slot.value;
      if shortId(e.hash) == id {
        assert Matches(shortId, seen'[i], id) && Matches(shortId, seen'[n], id);
      }
    } else if hit {
      var i, j :| 0 <= i < j < n && Matches(shortId, seen[i], id) && Matches(shortId, seen[j], id);
      assert Matches(shortId, seen'[i], id) && Matches(shortId, seen'[j], id);
    }
    if shortId(e.hash) == id {
      assert Matches(shortId, seen'[n], id) && seen'[n].tx == e.tx;
    }
  }

  lemma {:induction false} ScanMiss(shortId: nat -> nat, where: map<nat, nat>, slots0: seq<Option<Tx>>, seen: seq<Entry>,
                                    slots: seq<Option<Tx>>, have: seq<bool>, e: Entry)
    requires Scanned(shortId, where, slots0, seen, slots, have) && shortId(e.hash) !in where
    ensures Scanned(shortId, where, slots0, seen + [e], slots, have)
  {
    forall id | id in where
      ensures SlotOk(shortId, seen + [e], id, slots[where[id]], have[where[id]])
    {
      OneMoreSeen(shortId, seen, id, slots[where[id]], have[where[id]], e, None);
    }
  }

  lemma {:induction false} NotHit(shortId: nat -> nat, seen: seq<Entry>, id: nat, slot: Option<Tx>)
    requires SlotOk(shortId, seen, id, slot, false)
    ensures slot.None?
  {
  }

  lemma {:induction false} AllHit(shortId: nat -> nat, where: map<nat, nat>, slots0: seq<Option<Tx>>, seen: seq<Entry>,
                                  slots: seq<Option<Tx>>, have: seq<bool>, count: int)
    requires Going(shortId, where, slots0, seen, slots, have, count) && count == |where|
    ensures |have| == |slots| && forall id :: id in where ==> where[id] < |have| && have[where[id]]
  {
    forall id | id in where
      ensures have[where[id]]
    {
      NoneFree(slots, where[id]);
      assert SlotOk(shortId, seen, id, slots[where[id]], have[where[id]]);
    }
  }

  // The loop over the pool and the loop over the extra transactions. An entry that hits a
  // filled slot empties it, among the extra ones only if it is another transaction. The
  // scan stops early once every slot is filled. Where slots do not fit into 16 bits, the map
  // is not neat and no more is said than that the scan ends.
  method Scan(shortId: nat -> nat, where: map<nat, nat>, ghost slots0: seq<Option<Tx>>, ghost seen0: seq<Entry>,
              entries: seq<Entry>, witnessHash: Tx -> nat, extra: bool,
              slotsIn: seq<Option<Tx>>, haveIn: seq<bool>, countIn: int, ghost neat: bool)
    returns (slots: seq<Option<Tx>>, have: seq<bool>, count: int, ghost seen: seq<Entry>)
    requires |haveIn| == |slotsIn| && forall id :: id in where ==> where[id] < |slotsIn|
    requires neat ==> Going(shortId, where, slots0, seen0, slotsIn, haveIn, countIn)
    ensures |have| == |slots| == |slotsIn| && seen0 <= seen <= seen0 + entries
    ensures neat ==> Going(shortId, where, slots0, seen, slots, have, count)
    ensures neat ==> seen == seen0 + entries || forall id :: id in where ==> have[where[id]]
    ensures forall p :: 0 <= p < |have| && haveIn[p] ==> have[p]
  {
    hide Going;
    slots, have, count, seen := slotsIn, haveIn, countIn, seen0;
    var i := 0;
    assert seen0 + entries[..0] == seen0;
    while i < |entries|
      invariant 0 <= i <= |entries| && seen == seen0 + entries[..i]
      invariant |have| == |slots| == |slotsIn| && (neat ==> Going(shortId, where, slots0, seen, slots, have, count))
      invariant forall p :: 0 <= p < |have| && haveIn[p] ==> have[p]
    {
      var e := entries[i];
      slots, have, count := LookUp(shortId, where, slots0, seen, e, witnessHash, extra, slots, have, count, neat);
      assert seen0 + entries[..i + 1] == seen + [e];
      seen := seen + [e];
      if count == |where| {
        if neat {
          AllHit(shortId, where, slots0, seen, slots, have, count);
        }
        return;
      }
      i := i + 1;
    }
    assert entries[..i] == entries;
  }

  // The scan is on its way: slots and count are right for what was seen.
  ghost predicate Going(shortId: nat -> nat, where: map<nat, nat>, slots0: seq<Option<Tx>>, seen: seq<Entry>,
                        slots: seq<Option<Tx>>, have: seq<bool>, count: int) {
    Apart(where, slots0) && Scanned(shortId, where, slots0, seen, slots, have) && count + Free(slots) == |where|
  }

  // One entry.
  method LookUp(shortId: nat -> nat, where: map<nat, nat>, ghost slots0: seq<Option<Tx>>, ghost seen: seq<Entry>,
                e: Entry, witnessHash: Tx -> nat, extra: bool, slotsIn: seq<Option<Tx>>, haveIn: seq<bool>, countIn: int,
                ghost neat: bool)
    returns (slots: seq<Option<Tx>>, have: seq<bool>, count: int)
    requires |haveIn| == |slotsIn| && forall id :: id in where ==> where[id] < |slotsIn|
    requires neat ==> Going(shortId, where, slots0, seen, slotsIn, haveIn, countIn)
    ensures |have| == |slots| == |slotsIn| && forall p :: 0 <= p < |have| && haveIn[p] ==> have[p]
    ensures neat ==> Going(shortId, where, slots0, seen + [e], slots, have, count)
  {
    hide SlotOk, Apart, FreeBefore;
    slots, have, count := slotsIn, haveIn, countIn;
    var id := shortId(e.hash);
    if id in where {
      var p := where[id];
      if !have[p] {
        if neat {
          assert slots[p].None? by { NotHit(shortId, seen, id, slots[p]); }
          FreeUpdate(slots, p, |slots|, Some(e.tx));
          ScanStep(shortId, where, slots0, seen, slots, have, e, Some(e.tx));
        }
        slots, have, count := slots[p := Some(e.tx)], have[p := true], count + 1;
      } else if slots[p].Some? && (!extra || witnessHash(slots[p].value) != witnessHash(e.tx)) {
        if neat {
          FreeUpdate(slots, p, |slots|, None);
          ScanStep(shortId, where, slots0, seen, slots, have, e, None);
          assert have[p := true] == have;
        }
        slots, count := slots[p := None], count - 1;
      } else if neat {
        ScanStep(shortId, where, slots0, seen, slots, have, e, slots[p]);
        assert slots[p := slots[p]] == slots && have[p := true] == have;
      }
    } else if neat {
      ScanMiss(shortId, where, slots0, seen, slots, have, e);
    }
  }

  // ---- the block being put together ----

  // A slot is empty or holds an entry with its short id; it is empty only if no entry has
  // that id or two do.
  ghost predicate SlotSourced(shortId: nat -> nat, entries: seq<Entry>, id: nat, slot: Option<Tx>) {
    && (slot.Some? ==> exists i :: 0 <= i < |entries| && Matches(shortId, entries[i], id) && entries[i].tx == slot.value)
    && (slot.None? ==>
          Twice(shortId, entries, id) || forall i :: 0 <= i < |entries| ==> !Matches(shortId, entries[i], id))
  }

  // Every slot of the block as a reader of the message may rely on it: prefilled where
  // the message says so, and otherwise as found for its short id.
  ghost predicate Sourced(msg: Message, shortId: nat -> nat, entries: seq<Entry>, slots: seq<Option<Tx>>, base: seq<Option<Tx>>) {
    && Placed(msg, |msg.prefilled|, base) && |slots| == |base|
    && (forall p :: 0 <= p < |slots| && base[p].Some? ==> slots[p] == base[p])
    && (forall p :: 0 <= p < |slots| && base[p].None? ==>
          FreeBefore(base, p) < |msg.shortIds| && SlotSourced(shortId, entries, msg.shortIds[FreeBefore(base, p)], slots[p]))
  }

  // A full block from the slots and, in order, what was missing.
  ghost predicate Merged(slots: seq<Option<Tx>>, missing: seq<Tx>, n: nat, vtx: seq<Tx>) {
    && n <= |slots| && |vtx| == n
    && forall p :: 0 <= p < n ==>
         if slots[p].Some? then vtx[p] == slots[p].value
         else FreeBefore(slots, p) < |missing| && vtx[p] == missing[FreeBefore(slots, p)]
  }

  class PartiallyDownloadedBlock {
    const pool: seq<Entry>
    var header: nat
    var slots: seq<Option<Tx>>
    var mempoolCount: int

    constructor (poolIn: seq<Entry>)
      ensures pool == poolIn && header == 0 && slots == [] && mempoolCount == 0
    {
      pool := poolIn;
      header, slots, mempoolCount := 0, [], 0;
    }

    method FindTransactions(msg: Message, extra: seq<Entry>, shortId: nat -> nat, witnessHash: Tx -> nat,
                            where: map<nat, nat>, base: seq<Option<Tx>>)
      returns (found: seq<Option<Tx>>, count: int)
      requires Placed(msg, |msg.prefilled|, base) && |where| == |msg.shortIds|
      requires forall id :: id in where ==> where[id] < |base|
      requires |base| <= MAX_UINT16 + 1 ==> Mapped(msg.shortIds, base, where)
      ensures |found| == |base|
      ensures |base| <= MAX_UINT16 + 1 ==>
        Sourced(msg, shortId, pool + extra, found, base) && count + Free(found) == |msg.shortIds|
    {
      hide Sourced, SlotOk, FreeBefore, Placed, Apart, Mapped, Scanned;
      var have := seq(|base|, i => false);
      ghost var seen, seen', neat := [], [], |base| <= MAX_UINT16 + 1;
      if neat {
        MappedApart(msg.shortIds, base, where);
        StartScan(shortId, where, base, have);
        PlacedFree(msg, base);
      }
      found, have, count, seen := Scan(shortId, where, base, [], pool, witnessHash, false, base, have, 0, neat);
      assert [] + pool == pool;
      found, have, count, seen' := Scan(shortId, where, base, seen, extra, witnessHash, true, found, have, count, neat);
      if neat {
        ScanEnds(msg, shortId, where, base, seen, seen', pool, extra, found, have);
      }
    }

    // INVALID exactly for a malformed message, FAILED exactly if two short ids collide or
    // crowd a bucket. The slots are right if they fit into 16 bits. The excluded messages are
    // those for which the code does not return (OffsetLoopsEnd).
    method InitData(msg: Message, extra: seq<Entry>, shortId: nat -> nat, witnessHash: Tx -> nat, crowded: nat -> bool)
      returns (status: Status, ghost base: seq<Option<Tx>>)
      requires header == 0 && slots == [] && mempoolCount == 0
      requires WellFormed(msg) ==> |msg.prefilled| <= MAX_UINT16 || msg.shortIds == []
      modifies this
      ensures status == if !WellFormed(msg) then INVALID
                        else if Distinct(msg.shortIds) && forall i :: 0 <= i < |msg.shortIds| ==> !crowded(i) then OK
                        else FAILED
      ensures status == OK ==> header == msg.header && |slots| == BlockTxCount(msg)
      ensures status == OK && BlockTxCount(msg) <= MAX_UINT16 + 1 ==> Sourced(msg, shortId, pool + extra, slots, base)
    {
      hide Placed, Mapped, Sourced, PrefilledOk, FreeBefore, AllPrefilledOk, Cut;
      base := [];
      if msg.header == 0 || (msg.shortIds == [] && msg.prefilled == []) {
        return INVALID, base;
      }
      if BlockTxCount(msg) > MAX_BLOCK_WEIGHT / MIN_SERIALIZABLE_TRANSACTION_WEIGHT {
        return INVALID, base;
      }
      header := msg.header;
      var ok;
      ok, slots := PlacePrefilled(msg);
      if !ok {
        return INVALID, base;
      }
      base := slots;
      PlacedFree(msg, slots);
      var where;
      ok, where := MapShortIds(msg, slots, crowded);
      if !ok {
        return FAILED, base;
      }
      slots, mempoolCount := FindTransactions(msg, extra, shortId, witnessHash, where, slots);
      status := OK;
    }

    // The transactions that are still to be asked for, as 16-bit numbers.
    method MissingIndexes() returns (indexes: seq<int>)
      ensures Fits(indexes) && |indexes| == Free(slots)
      ensures forall p :: 0 <= p < |slots| && slots[p].None? ==>
        FreeBefore(slots, p) < |indexes| && indexes[FreeBefore(slots, p)] == p % (MAX_UINT16 + 1)
      ensures forall i :: 0 <= i < |indexes| ==> 0 <= indexes[i] < |slots|
      ensures |slots| <= MAX_UINT16 + 1 ==> Increasing(indexes)
    {
      indexes := [];
      var i := 0;
      while i < |slots|
        invariant 0 <= i <= |slots| && |indexes| == FreeBefore(slots, i) && Fits(indexes)
        invariant |slots| <= MAX_UINT16 + 1 ==> Increasing(indexes)
        invariant forall k :: 0 <= k < |indexes| ==> 0 <= indexes[k] < i
        invariant forall p :: 0 <= p < i && slots[p].None? ==>
          FreeBefore(slots, p) < |indexes| && indexes[FreeBefore(slots, p)] == p % (MAX_UINT16 + 1)
      {
        if slots[i].None? {
          indexes := indexes + [i % (MAX_UINT16 + 1)];
        }
        i := i + 1;
      }
    }

    // INVALID exactly if the number of missing transactions is wrong; otherwise the
    // merged block is checked.
    method FillBlock(missing: seq<Tx>, checkBlock: seq<Tx> -> Status) returns (status: Status, vtx: seq<Tx>)
      requires header != 0
      modifies this
      ensures |missing| != Free(old(slots)) ==> status == INVALID
      ensures |missing| == Free(old(slots)) ==>
        Merged(old(slots), missing, |old(slots)|, vtx) && status == checkBlock(vtx) && header == 0 && slots == []
    {
      vtx := [];
      var offset := 0;
      ghost var all := slots;
      while |vtx| < |slots|
        invariant |slots| == |all| && |vtx| <= |slots| && offset == FreeBefore(all, |vtx|) <= |missing| && header == old(header)
        invariant Merged(all, missing, |vtx|, vtx)
        invariant forall p :: |vtx| <= p < |slots| ==> slots[p] == all[p]
      {
        var i := |vtx|;
        FreeMonotone(all, i + 1, |all|);
        assert FreeBefore(all, i + 1) == FreeBefore(all, i) + Weight(all[i]);
        hide FreeBefore;
        if slots[i].None? {
          if |missing| <= offset {
            return INVALID, vtx;
          }
          vtx := vtx + [missing[offset]];
          offset := offset + 1;
        } else {
          vtx := vtx + [slots[i].value];
          slots := slots[i := None];
        }
      }
      header, slots := 0, [];
      if |missing| != offset {
        return INVALID, vtx;
      }
      status := checkBlock(vtx);
    }
  }

  lemma {:induction false} PlacedFree(msg: Message, slots: seq<Option<Tx>>)
    requires Placed(msg, |msg.prefilled|, slots)
    ensures Free(slots) == |msg.shortIds| && |slots| == BlockTxCount(msg)
  {
  }

  lemma {:induction false} StartScan(shortId: nat -> nat, where: map<nat, nat>, base: seq<Option<Tx>>, have: seq<bool>)
    requires Apart(where, base) && |have| == |base| && forall p :: 0 <= p < |have| ==> !have[p]
    ensures Scanned(shortId, where, base, [], base, have)
  {
    forall id | id in where
      ensures SlotOk(shortId, [], id, base[where[id]], have[where[id]])
    {
    }
  }

  lemma {:induction false} ScanEnds(msg: Message, shortId: nat -> nat, where: map<nat, nat>, base: seq<Option<Tx>>,
                                    seen: seq<Entry>, seen': seq<Entry>, pool: seq<Entry>, extra: seq<Entry>,
                                    slots: seq<Option<Tx>>, have: seq<bool>)
    requires Placed(msg, |msg.prefilled|, base) && Mapped(msg.shortIds, base, where)
    requires Scanned(shortId, where, base, seen', slots, have)
    requires seen <= pool && seen <= seen' <= seen + extra
    requires (forall id :: id in where ==> have[where[id]]) || (seen == pool && seen' == seen + extra)
    ensures Sourced(msg, shortId, pool + extra, slots, base)
  {
    forall p | 0 <= p < |slots| && base[p].None?
      ensures FreeBefore(base, p) < |msg.shortIds|
      ensures SlotSourced(shortId, pool + extra, msg.shortIds[FreeBefore(base, p)], slots[p])
    {
      FreeMonotone(base, p + 1, |base|);
      var id := msg.shortIds[FreeBefore(base, p)];
      SameSlot(base, p, where[id]);
      assert SlotOk(shortId, seen', id, slots[p], have[p]);
      SlotEnds(shortId, seen, seen', pool, extra, id, slots[p], have[p]);
    }
  }

  lemma {:induction false} SlotEnds(shortId: nat -> nat, seen: seq<Entry>, seen': seq<Entry>, pool: seq<Entry>, extra: seq<Entry>,
                                    id: nat, slot: Option<Tx>, hit: bool)
    requires seen <= pool && seen <= seen' <= seen + extra && SlotOk(shortId, seen', id, slot, hit)
    requires hit || (seen == pool && seen' == seen + extra)
    ensures SlotSourced(shortId, pool + extra, id, slot)
  {
    var all := pool + extra;
    if slot.Some? {
      var i :| 0 <= i < |seen'| && Matches(shortId, seen'[i], id) && seen'[i].tx == slot.value;
      FromSeen(seen, seen', pool, extra, i);
    } else if hit {
      var i, j :| 0 <= i < j < |seen'| && Matches(shortId, seen'[i], id) && Matches(shortId, seen'[j], id);
      FromSeen(seen, seen', pool, extra, i);
      FromSeen(seen, seen', pool, extra, j);
      var i', j' := Shift(|seen|, |pool|, i), Shift(|seen|, |pool|, j);
      assert Matches(shortId, all[i'], id) && Matches(shortId, all[j'], id);
    }
  }

  // Free slots are told apart by the number of free slots before them.
  lemma {:induction false} SameSlot(slots: seq<Option<Tx>>, p: nat, q: nat)
    requires p < |slots| && q < |slots| && slots[p].None? && slots[q].None? && FreeBefore(slots, p) == FreeBefore(slots, q)
    ensures p == q
  {
    if p < q {
      FreeMonotone(slots, p + 1, q);
    } else if q < p {
      FreeMonotone(slots, q + 1, p);
    }
  }

  lemma {:induction false} FromSeen(seen: seq<Entry>, seen': seq<Entry>, pool: seq<Entry>, extra: seq<Entry>, i: nat)
    requires seen <= pool && seen <= seen' <= seen + extra && i < |seen'|
    ensures Shift(|seen|, |pool|, i) < |pool + extra| && (pool + extra)[Shift(|seen|, |pool|, i)] == seen'[i]
  {
    assert seen'[i] == (seen + extra)[i];
  }

  // Where an entry seen is among all entries, if a part of the pool was passed over.
  function Shift(seen: nat, pool: nat, i: nat): nat
    requires seen <= pool
  {
    if i < seen then i else i + (pool - seen)
  }

  // ---- the whole exchange ----

  method MakeMessage(header: nat, vtx: seq<Tx>, hash: Tx -> nat, shortId: nat -> nat) returns (msg: Message)
    requires vtx != []
    ensures msg.header == header && msg.prefilled == [Prefilled(0, vtx[0])]
    ensures |msg.shortIds| == |vtx| - 1 && forall i :: 0 <= i < |msg.shortIds| ==> msg.shortIds[i] == shortId(hash(vtx[i + 1]))
  {
    var ids := [];
    var i := 1;
    while i < |vtx|
      invariant 1 <= i <= |vtx| && |ids| == i - 1
      invariant forall k :: 0 <= k < |ids| ==> ids[k] == shortId(hash(vtx[k + 1]))
    {
      ids := ids + [shortId(hash(vtx[i]))];
      i := i + 1;
    }
    msg := Message(header, ids, [Prefilled(0, vtx[0])]);
  }

  method Reply(vtx: seq<Tx>, indexes: seq<int>) returns (txn: Option<seq<Tx>>)
    requires Fits(indexes)
    ensures txn.Some? <==> forall i :: 0 <= i < |indexes| ==> indexes[i] < |vtx|
    ensures txn.Some? ==> |txn.value| == |indexes| && forall i :: 0 <= i < |indexes| ==> txn.value[i] == vtx[indexes[i]]
  {
    var out := [];
    while |out| < |indexes|
      invariant |out| <= |indexes|
      invariant forall i :: 0 <= i < |out| ==> indexes[i] < |vtx| && out[i] == vtx[indexes[i]]
    {
      if indexes[|out|] >= |vtx| {
        return None;
      }
      out := out + [vtx[indexes[|out|]]];
    }
    txn := Some(out);
  }

  // No entry at hand has the short id of another transaction of the block.
  ghost predicate NoCollision(vtx: seq<Tx>, hash: Tx -> nat, shortId: nat -> nat, entries: seq<Entry>) {
    forall i, k :: 0 <= i < |entries| && 1 <= k < |vtx| && shortId(entries[i].hash) == shortId(hash(vtx[k])) ==>
      entries[i].tx == vtx[k]
  }

  // A block sent in compact form is rebuilt exactly, whatever the two pools hold, unless
  // its own short ids collide or crowd a bucket.
  method Transfer(header: nat, vtx: seq<Tx>, hash: Tx -> nat, shortId: nat -> nat, witnessHash: Tx -> nat,
                  pool: seq<Entry>, extra: seq<Entry>, crowded: nat -> bool, checkBlock: seq<Tx> -> Status)
    returns (status: Status, rebuilt: seq<Tx>)
    requires header != 0 && 1 <= |vtx| <= MAX_UINT16 + 1 && forall i :: 0 <= i < |vtx| ==> vtx[i] != 0
    requires NoCollision(vtx, hash, shortId, pool + extra)
    ensures (status == FAILED && rebuilt == []) || (rebuilt == vtx && status == checkBlock(vtx))
    ensures rebuilt == vtx <==>
      && (forall i, j :: 1 <= i < j < |vtx| ==> shortId(hash(vtx[i])) != shortId(hash(vtx[j])))
      && (forall i :: 0 <= i < |vtx| - 1 ==> !crowded(i))
  {
    hide Sourced, FreeBefore, NoCollision, Merged, Increasing, Fits, Placed, Distinct;
    var msg := MakeMessage(header, vtx, hash, shortId);
    assert WellFormed(msg) by {
      assert Position(msg.prefilled, 0) == 0;
    }
    hide WellFormed;
    assert Distinct(msg.shortIds) <==> forall i, j :: 1 <= i < j < |vtx| ==> shortId(hash(vtx[i])) != shortId(hash(vtx[j])) by {
      DistinctIds(msg.shortIds, vtx, hash, shortId);
    }
    var block := new PartiallyDownloadedBlock(pool);
    ghost var base;
    status, base := block.InitData(msg, extra, shortId, witnessHash, crowded);
    if status == FAILED {
      return FAILED, [];
    }
    OnlyCoinbase(msg, shortId, pool + extra, block.slots, base);
    RightSlots(msg, vtx, hash, shortId, pool + extra, block.slots, base);
    var indexes := block.MissingIndexes();
    var asked := SendIndexes(indexes);
    var answer := Reply(vtx, asked.value);
    ghost var slots := block.slots;
    status, rebuilt := block.FillBlock(answer.value, checkBlock);
    Rebuilt(vtx, slots, indexes, answer.value, rebuilt);
  }

  lemma {:induction false} Rebuilt(vtx: seq<Tx>, slots: seq<Option<Tx>>, indexes: seq<int>, missing: seq<Tx>, rebuilt: seq<Tx>)
    requires |slots| == |vtx| && forall p :: 0 <= p < |slots| && slots[p].Some? ==> slots[p].value == vtx[p]
    requires forall p :: 0 <= p < |slots| && slots[p].None? ==> FreeBefore(slots, p) < |indexes| && indexes[FreeBefore(slots, p)] == p
    requires |missing| == |indexes| && forall i :: 0 <= i < |indexes| ==> 0 <= indexes[i] < |vtx| && missing[i] == vtx[indexes[i]]
    requires Merged(slots, missing, |slots|, rebuilt)
    ensures rebuilt == vtx
  {
    hide FreeBefore;
    forall p | 0 <= p < |vtx|
      ensures rebuilt[p] == vtx[p]
    {
      if slots[p].None? {
        assert missing[FreeBefore(slots, p)] == vtx[p];
      }
    }
  }

  lemma {:induction false} DistinctIds(ids: seq<nat>, vtx: seq<Tx>, hash: Tx -> nat, shortId: nat -> nat)
    requires |vtx| >= 1 && |ids| == |vtx| - 1 && forall i :: 0 <= i < |ids| ==> ids[i] == shortId(hash(vtx[i + 1]))
    ensures Distinct(ids) <==> forall i, j :: 1 <= i < j < |vtx| ==> shortId(hash(vtx[i])) != shortId(hash(vtx[j]))
  {
    if Distinct(ids) {
      forall i, j | 1 <= i < j < |vtx|
        ensures shortId(hash(vtx[i])) != shortId(hash(vtx[j]))
      {
        assert ids[i - 1] != ids[j - 1];
      }
    }
  }

  lemma {:induction false} OnlyCoinbase(msg: Message, shortId: nat -> nat, entries: seq<Entry>, slots: seq<Option<Tx>>, base: seq<Option<Tx>>)
    requires |msg.prefilled| == 1 && msg.prefilled[0].index == 0 && Sourced(msg, shortId, entries, slots, base)
    ensures |base| == |msg.shortIds| + 1 && base[0] == Some(msg.prefilled[0].tx) && forall p :: 1 <= p < |base| ==> base[p].None?
  {
    hide SlotSourced;
    assert Position(msg.prefilled, 0) == 0;
  }

  lemma {:induction false} RightSlots(msg: Message, vtx: seq<Tx>, hash: Tx -> nat, shortId: nat -> nat, entries: seq<Entry>,
                                      slots: seq<Option<Tx>>, base: seq<Option<Tx>>)
    requires vtx != [] && |msg.shortIds| == |vtx| - 1 && base != [] && base[0] == Some(vtx[0])
    requires forall p :: 1 <= p < |base| ==> base[p].None?
    requires forall i :: 0 <= i < |msg.shortIds| ==> msg.shortIds[i] == shortId(hash(vtx[i + 1]))
    requires NoCollision(vtx, hash, shortId, entries) && Sourced(msg, shortId, entries, slots, base)
    requires |base| == |vtx|
    ensures |slots| == |vtx| && forall p :: 0 <= p < |slots| && slots[p].Some? ==> slots[p].value == vtx[p]
  {
    hide Placed, FreeBefore, SlotSourced, NoCollision;
    forall p | 0 < p < |slots|
      ensures slots[p].Some? ==> slots[p].value == vtx[p]
    {
      FreeAfterFirst(base, p);
      RightSlot(vtx, hash, shortId, entries, p, slots[p]);
    }
  }

  lemma {:induction false} RightSlot(vtx: seq<Tx>, hash: Tx -> nat, shortId: nat -> nat, entries: seq<Entry>, p: nat, slot: Option<Tx>)
    requires 1 <= p < |vtx| && NoCollision(vtx, hash, shortId, entries)
    requires SlotSourced(shortId, entries, shortId(hash(vtx[p])), slot)
    ensures slot.Some? ==> slot.value == vtx[p]
  {
    if slot.Some? {
      var i :| 0 <= i < |entries| && Matches(shortId, entries[i], shortId(hash(vtx[p]))) && entries[i].tx == slot.value;
      assert shortId(entries[i].hash) == shortId(hash(vtx[p]));
    }
  }

  lemma {:induction false} FreeAfterFirst(slots: seq<Option<Tx>>, p: nat)
    requires 1 <= p < |slots| && slots[0].Some? && forall q :: 1 <= q < |slots| ==> slots[q].None?
    ensures FreeBefore(slots, p) == p - 1
  {
    if p > 1 {
      FreeAfterFirst(slots, p - 1);
    }
  }
}
