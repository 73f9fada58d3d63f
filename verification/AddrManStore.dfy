// Saving and loading the address manager (src/addrman.h:295-470).

module AddrManStore {
  import opened Basics
  import opened AddrManState
  import opened AddrManRuns
  import opened AddrMan
  import opened AddrManLoad

  // ---- ids in the order of std::map ----

  // The elements of s that are at least 0 and below hi, ascending.
  function Listed(s: set<int>, hi: int): (q: seq<int>)
    ensures forall k :: 0 <= k < |q| ==> q[k] in s && 0 <= q[k] < hi
    decreases hi
  {
    if hi <= 0 then [] else Listed(s, hi - 1) + (if hi - 1 in s then [hi - 1] else [])
  }

  // How many elements of s come before an id.
  function Rank(s: set<int>, id: int): nat {
    |Listed(s, id)|
  }

  lemma {:induction false} ListedAt(s: set<int>, hi: int, id: int)
    requires id in s && 0 <= id < hi
    ensures Rank(s, id) < |Listed(s, hi)| && Listed(s, hi)[Rank(s, id)] == id
    decreases hi
  {
    if id < hi - 1 {
      ListedAt(s, hi - 1, id);
    }
  }

  lemma {:induction false} RankAt(s: set<int>, hi: int, k: nat)
    requires k < |Listed(s, hi)|
    ensures Rank(s, Listed(s, hi)[k]) == k
    decreases hi
  {
    if k < |Listed(s, hi - 1)| {
      RankAt(s, hi - 1, k);
    }
  }

  lemma {:induction false} ListedSize(s: set<int>, hi: int)
    requires forall x :: x in s ==> 0 <= x < hi
    ensures |Listed(s, hi)| == |s|
    decreases hi
  {
    if hi > 0 {
      var r := s - {hi - 1};
      ListedSize(r, hi - 1);
      ListedWithout(s, hi - 1);
    } else {
      assert s == {} by {
        forall x | x in s ensures false {}
      }
    }
  }

  lemma {:induction false} ListedWithout(s: set<int>, hi: int)
    ensures Listed(s - {hi}, hi) == Listed(s, hi)
  {
    ListedDependsBelow(s - {hi}, s, hi);
  }

  lemma {:induction false} ListedDependsBelow(s: set<int>, t: set<int>, hi: int)
    requires forall x :: 0 <= x < hi ==> (x in s <==> x in t)
    ensures Listed(s, hi) == Listed(t, hi)
    decreases hi
  {
    if hi > 0 {
      ListedDependsBelow(s, t, hi - 1);
    }
  }

  // ---- the format ----

  ghost function NewOrder(m: Man): seq<int> {
    Listed(NewIds(m), m.idCount)
  }

  ghost function TriedOrder(m: Man): seq<int> {
    Listed(TriedIds(m), m.idCount)
  }

  // The index under which an id is written.
  ghost function IndexOf(m: Man, id: int): nat {
    if id in m.info && m.info[id].inTried then |NewOrder(m)| + Rank(TriedIds(m), id) else Rank(NewIds(m), id)
  }

  function Infos(m: Man, ids: seq<int>): seq<Token>
    requires forall k :: 0 <= k < |ids| ==> ids[k] in m.info
  {
    if ids == [] then []
    else
      [Info(ToStored(m.info[ids[0]]))] + Infos(m, ids[1..])
  }

  // The occupied positions of a new bucket from position p on.
  function Occupied(m: Man, bucket: nat, p: nat): (q: seq<nat>)
    ensures forall i :: 0 <= i < |q| ==> p <= q[i] < BUCKET_SIZE && Slot(bucket, q[i]) in m.newTab
    ensures forall i, j :: 0 <= i < j < |q| ==> q[i] < q[j]
    decreases BUCKET_SIZE - p
  {
    if p >= BUCKET_SIZE then []
    else (if Slot(bucket, p) in m.newTab then [p] else []) + Occupied(m, bucket, p + 1)
  }

  ghost function Indexes(m: Man, bucket: nat, ps: seq<nat>): seq<Token>
    requires forall k :: 0 <= k < |ps| ==> Slot(bucket, ps[k]) in m.newTab
  {
    if ps == [] then []
    else
      [Int(IndexOf(m, m.newTab[Slot(bucket, ps[0])]))] + Indexes(m, bucket, ps[1..])
  }

  ghost function Buckets(m: Man, bucket: nat): seq<Token>
    decreases NEW_BUCKET_COUNT - bucket
  {
    if bucket >= NEW_BUCKET_COUNT then []
    else
      var ps := Occupied(m, bucket, 0);
      [Int(|ps|)] + (Indexes(m, bucket, ps) + Buckets(m, bucket + 1))
  }

  ghost function Header(m: Man): seq<Token> {
    [Byte(VERSION), Byte(KEY_SIZE), Key(m.key), Int(m.nNew), Int(m.nTried), Int(ToggleMark(NEW_BUCKET_COUNT))]
  }

  // The stream Serialize writes.
  ghost function Save(m: Man): seq<Token> {
    Header(m) + (Infos(m, NewOrder(m)) + (Infos(m, TriedOrder(m)) + Buckets(m, 0)))
  }

  // ---- what loading should give ----

  // Every id, new ones first, in the order they are written.
  ghost function Order(m: Man): seq<int> {
    NewOrder(m) + TriedOrder(m)
  }

  lemma {:induction false} OrderSizes(env: Env, m: Man)
    requires Inv(env, m)
    ensures |NewOrder(m)| == m.nNew && |TriedOrder(m)| == m.nTried && |Order(m)| == |m.info|
  {
    hide AddrOk, TriedOk, NewOk, RefsOk, RandomOk, TriedIds, NewIds;
    IdsInRange(m);
    ListedSize(NewIds(m), m.idCount);
    ListedSize(TriedIds(m), m.idCount);
    Partition(m);
  }

  lemma {:induction false} IdsInRange(m: Man)
    requires IdsOk(m)
    ensures forall x :: x in NewIds(m) ==> 0 <= x < m.idCount
    ensures forall x :: x in TriedIds(m) ==> 0 <= x < m.idCount
  {
  }

  lemma {:induction false} Partition(m: Man)
    ensures |TriedIds(m)| + |NewIds(m)| == |m.info|
  {
    assert TriedIds(m) + NewIds(m) == m.info.Keys && TriedIds(m) !! NewIds(m);
    assert |TriedIds(m) + NewIds(m)| == |TriedIds(m)| + |NewIds(m)|;
  }

  // Writing order and index are inverse.
  lemma {:induction false} OrderAt(env: Env, m: Man, id: int)
    requires Inv(env, m) && id in m.info
    ensures IndexOf(m, id) < |Order(m)| && Order(m)[IndexOf(m, id)] == id
    ensures IndexOf(m, id) < |NewOrder(m)| <==> !m.info[id].inTried
  {
    hide AddrOk, TriedOk, NewOk, RefsOk, CountsOk, RandomOk;
    ListedAt(if m.info[id].inTried then TriedIds(m) else NewIds(m), m.idCount, id);
  }

  lemma {:induction false} IndexAt(m: Man, k: nat)
    requires k < |Order(m)|
    ensures Order(m)[k] in m.info && IndexOf(m, Order(m)[k]) == k
    ensures k < |NewOrder(m)| <==> !m.info[Order(m)[k]].inTried
  {
    if k < |NewOrder(m)| {
      RankAt(NewIds(m), m.idCount, k);
    } else {
      assert Order(m)[k] == TriedOrder(m)[k - |NewOrder(m)|];
      RankAt(TriedIds(m), m.idCount, k - |NewOrder(m)|);
    }
  }

  // A loaded entry: what is kept in memory only is gone.
  function Loaded(i: AddrInfo, k: int): AddrInfo {
    AddrInfo(i.address, i.source, i.lastSuccess, 0, 0, i.attempts, i.refCount, i.inTried, k)
  }

  // The same manager with ids renumbered in the order they are written and vRandom
  // in that order.
  ghost function Renumber(m: Man): Man {
    var order := Order(m);
    Man(m.key, |order|,
        map k | 0 <= k < |order| && order[k] in m.info :: Loaded(m.info[order[k]], k),
        map a | a in m.addr :: IndexOf(m, m.addr[a]),
        seq(|order|, k => k),
        m.nTried, map s | s in m.triedTab :: IndexOf(m, m.triedTab[s]),
        m.nNew, map s | s in m.newTab :: IndexOf(m, m.newTab[s]), 1)
  }

  // ---- writing ----

  lemma {:induction false} InfosAppend(m: Man, ids: seq<int>, id: int)
    requires (forall k :: 0 <= k < |ids| ==> ids[k] in m.info) && id in m.info
    ensures Infos(m, ids + [id]) == Infos(m, ids) + [Info(ToStored(m.info[id]))]
  {
    if ids == [] {
      assert ids + [id] == [id];
    } else {
      assert (ids + [id])[1..] == ids[1..] + [id];
      InfosAppend(m, ids[1..], id);
    }
  }

  // One round of either loop over mapInfo.
  lemma {:induction false} InfosNext(m: Man, ids: set<int>, id: nat)
    requires ids <= m.info.Keys
    ensures Infos(m, Listed(ids, id + 1))
            == Infos(m, Listed(ids, id)) + (if id in ids then [Info(ToStored(m.info[id]))] else [])
  {
    if id in ids {
      InfosAppend(m, Listed(ids, id), id);
    } else {
      assert Listed(ids, id + 1) == Listed(ids, id);
    }
  }

  // The loop over mapInfo that writes the entries with a reference count. Its assert
  // cannot fail.
  method WriteNew(man: CAddrMan) returns (s: seq<Token>, mapUnkIds: map<int, nat>)
    requires man.Valid() && Inv(man.env, man.State())
    ensures s == Infos(man.State(), NewOrder(man.State()))
    ensures forall x :: x in NewIds(man.State()) ==> x in mapUnkIds && mapUnkIds[x] == Rank(NewIds(man.State()), x)
  {
    hide Between;
    ghost var m := man.State();
    ghost var ids := NewIds(m);
    s, mapUnkIds := [], map[];
    var nIds: nat := 0;
    var id := 0;
    InvIds(man.env, m);
    while id < man.nIdCount
      invariant 0 <= id <= man.nIdCount
      invariant nIds == Rank(ids, id)
      invariant s == Infos(m, Listed(ids, id))
      invariant forall x :: x in ids && x < id ==> x in mapUnkIds && mapUnkIds[x] == Rank(ids, x)
    {
      InfosNext(m, ids, id);
      if id in man.mapInfo {
        mapUnkIds := mapUnkIds[id := nIds];
        ListedSomewhere(man.env, m, id);
        if man.mapInfo[id].refCount != 0 {
          OrderSizes(man.env, m);
          ListedAt(ids, m.idCount, id);
          assert nIds != man.nNew;
          s := s + [Info(ToStored(man.mapInfo[id]))];
          nIds := nIds + 1;
        }
      }
      id := id + 1;
    }
  }

  // The loop over mapInfo that writes the tried entries.
  method WriteTried(man: CAddrMan) returns (s: seq<Token>)
    requires man.Valid() && Inv(man.env, man.State())
    ensures s == Infos(man.State(), TriedOrder(man.State()))
  {
    hide Between;
    ghost var m := man.State();
    ghost var ids := TriedIds(m);
    s := [];
    var nIds: nat := 0;
    var id := 0;
    InvIds(man.env, m);
    while id < man.nIdCount
      invariant 0 <= id <= man.nIdCount
      invariant nIds == Rank(ids, id)
      invariant s == Infos(m, Listed(ids, id))
    {
      InfosNext(m, ids, id);
      if id in man.mapInfo && man.mapInfo[id].inTried {
        OrderSizes(man.env, m);
        ListedAt(ids, m.idCount, id);
        assert nIds != man.nTried;
        s := s + [Info(ToStored(man.mapInfo[id]))];
        nIds := nIds + 1;
      }
      id := id + 1;
    }
  }

  lemma {:induction false} InvIds(env: Env, m: Man)
    requires Inv(env, m)
    ensures IdsOk(m)
  {
  }

  // How many entries a bucket of the new table holds.
  method BucketSize(man: CAddrMan, bucket: nat) returns (nSize: nat)
    requires man.Valid() && bucket < NEW_BUCKET_COUNT
    ensures nSize == |Occupied(man.State(), bucket, 0)|
  {
    ghost var m := man.State();
    nSize := 0;
    var i := 0;
    while i < BUCKET_SIZE
      invariant 0 <= i <= BUCKET_SIZE
      invariant nSize + |Occupied(m, bucket, i)| == |Occupied(m, bucket, 0)|
    {
      SlotIn(man.vvNew, bucket, i);
      if man.vvNew[bucket, i] != FREE {
        nSize := nSize + 1;
      }
      i := i + 1;
    }
  }

  // The indexes of the entries of a bucket.
  method BucketIndexes(man: CAddrMan, mapUnkIds: map<int, nat>, bucket: nat) returns (s: seq<Token>)
    requires man.Valid() && Inv(man.env, man.State()) && bucket < NEW_BUCKET_COUNT
    requires forall x :: x in NewIds(man.State()) ==> x in mapUnkIds && mapUnkIds[x] == Rank(NewIds(man.State()), x)
    ensures s == Indexes(man.State(), bucket, Occupied(man.State(), bucket, 0))
  {
    hide Between, NewIds, Rank, Indexes, Occupied;
    ghost var m := man.State();
    IndexesEnd(m, bucket);
    s := [];
    var i := 0;
    while i < BUCKET_SIZE
      invariant 0 <= i <= BUCKET_SIZE
      invariant s + Indexes(m, bucket, Occupied(m, bucket, i)) == Indexes(m, bucket, Occupied(m, bucket, 0))
    {
      SlotIn(man.vvNew, bucket, i);
      IndexesNext(m, bucket, i);
      if man.vvNew[bucket, i] != FREE {
        NewSlotListed(man.env, m, Slot(bucket, i));
        s := s + [Int(mapUnkIds[man.vvNew[bucket, i]])];
      }
      i := i + 1;
    }
  }

  lemma {:induction false} IndexesEnd(m: Man, bucket: nat)
    ensures Indexes(m, bucket, Occupied(m, bucket, BUCKET_SIZE)) == []
  {
  }

  lemma {:induction false} IndexesNext(m: Man, bucket: nat, i: nat)
    requires i < BUCKET_SIZE
    ensures Indexes(m, bucket, Occupied(m, bucket, i))
            == (if Slot(bucket, i) in m.newTab then [Int(IndexOf(m, m.newTab[Slot(bucket, i)]))] else [])
               + Indexes(m, bucket, Occupied(m, bucket, i + 1))
  {
    hide IndexOf;
    var here, next := Occupied(m, bucket, i), Occupied(m, bucket, i + 1);
    if Slot(bucket, i) in m.newTab {
      assert here == [i] + next;
      assert here[0] == i && here[1..] == next;
    } else {
      assert here == next;
    }
  }

  lemma {:induction false} NewSlotListed(env: Env, m: Man, s: Slot)
    requires Inv(env, m) && s in m.newTab
    ensures m.newTab[s] in NewIds(m) && IndexOf(m, m.newTab[s]) == Rank(NewIds(m), m.newTab[s])
  {
    hide AddrOk, CountsOk, IdsOk, RandomOk, TriedOk;
    ListedNotLoose(env, m, s, {});
    var id := m.newTab[s];
    assert id in m.info && !m.info[id].inTried;
  }

  method WriteBuckets(man: CAddrMan, mapUnkIds: map<int, nat>) returns (s: seq<Token>)
    requires man.Valid() && Inv(man.env, man.State())
    requires forall x :: x in NewIds(man.State()) ==> x in mapUnkIds && mapUnkIds[x] == Rank(NewIds(man.State()), x)
    ensures s == Buckets(man.State(), 0)
  {
    hide Between, Inv, NewIds, Rank, Indexes, Occupied, Buckets;
    ghost var m := man.State();
    BucketsEnd(m);
    s := [];
    var bucket := 0;
    while bucket < NEW_BUCKET_COUNT
      invariant 0 <= bucket <= NEW_BUCKET_COUNT
      invariant s + Buckets(m, bucket) == Buckets(m, 0)
    {
      var nSize := BucketSize(man, bucket);
      var indexes := BucketIndexes(man, mapUnkIds, bucket);
      BucketsNext(m, bucket);
      s := s + [Int(nSize)] + indexes;
      bucket := bucket + 1;
    }
  }

  lemma {:induction false} BucketsNext(m: Man, bucket: nat)
    requires bucket < NEW_BUCKET_COUNT
    ensures var ps := Occupied(m, bucket, 0);
            Buckets(m, bucket) == [Int(|ps|)] + (Indexes(m, bucket, ps) + Buckets(m, bucket + 1))
  {
  }

  lemma {:induction false} BucketsEnd(m: Man)
    ensures Buckets(m, NEW_BUCKET_COUNT) == []
  {
  }

  method Serialize(man: CAddrMan) returns (s: seq<Token>)
    requires man.Valid() && Inv(man.env, man.State())
    ensures s == Save(man.State())
  {
    hide Between, NewIds, Rank;
    s := [Byte(VERSION), Byte(KEY_SIZE), Key(man.nKey), Int(man.nNew), Int(man.nTried), Int(ToggleMark(NEW_BUCKET_COUNT))];
    var news, mapUnkIds := WriteNew(man);
    var trieds := WriteTried(man);
    var buckets := WriteBuckets(man, mapUnkIds);
    s := s + (news + (trieds + buckets));
  }

  // ---- the tables bound the counters ----

  // Ids that each hold a slot of their own are no more than the slots.
  lemma {:induction false} NoMoreIdsThanSlots(ids: set<int>, slotOf: map<int, Slot>, slots: set<Slot>)
    requires forall n :: n in ids ==> n in slotOf && slotOf[n] in slots
    requires forall n, k :: n in ids && k in ids && n != k ==> slotOf[n] != slotOf[k]
    ensures |ids| <= |slots|
  {
    if n :| n in ids {
      NoMoreIdsThanSlots(ids - {n}, slotOf, slots - {slotOf[n]});
    } else {
      assert ids == {};
    }
  }

  lemma {:induction false} CountersFit(env: Env, m: Man)
    requires EnvOk(env) && Inv(env, m)
    ensures 0 <= m.nNew <= NEW_BUCKET_COUNT * BUCKET_SIZE && 0 <= m.nTried <= TRIED_BUCKET_COUNT * BUCKET_SIZE
  {
    NewFit(env, m);
    TriedFit(env, m);
    hide AddrOk, IdsOk, RandomOk, NewOk, TriedOk, RefsOk;
  }

  lemma {:induction false} NewFit(env: Env, m: Man)
    requires EnvOk(env) && Inv(env, m)
    ensures |NewIds(m)| <= NEW_BUCKET_COUNT * BUCKET_SIZE
  {
    hide AddrOk, IdsOk, RandomOk, TriedOk, RefsOk, CountsOk;
    forall n | n in NewIds(m)
      ensures exists s :: s in m.newTab && m.newTab[s] == n
    {
      ListedSomewhere(env, m, n);
    }
    var newSlot := map n | n in NewIds(m) :: (var s :| s in m.newTab && m.newTab[s] == n; s);
    NoMoreIdsThanSlots(NewIds(m), newSlot, m.newTab.Keys);
    SlotsWithin(m.newTab.Keys, NEW_BUCKET_COUNT, BUCKET_SIZE);
  }

  lemma {:induction false} TriedFit(env: Env, m: Man)
    requires EnvOk(env) && Inv(env, m)
    ensures |TriedIds(m)| <= TRIED_BUCKET_COUNT * BUCKET_SIZE
  {
    hide AddrOk, IdsOk, RandomOk, NewOk, RefsOk, CountsOk;
    var triedSlot := map n | n in TriedIds(m) :: TriedSlot(env, m.key, m.info[n].address.service);
    NoMoreIdsThanSlots(TriedIds(m), triedSlot, m.triedTab.Keys);
    SlotsWithin(m.triedTab.Keys, TRIED_BUCKET_COUNT, BUCKET_SIZE);
  }

  lemma {:induction false} SlotsWithin(slots: set<Slot>, buckets: nat, size: nat)
    requires forall s :: s in slots ==> s.bucket < buckets && s.pos < size
    ensures |slots| <= buckets * size
  {
    if buckets == 0 {
      if s :| s in slots {
        assert false;
      }
      assert slots == {};
    } else {
      var last := set s | s in slots && s.bucket == buckets - 1;
      SlotsInBucket(last, buckets - 1, size);
      SlotsWithin(slots - last, buckets - 1, size);
      assert slots == last + (slots - last);
      assert buckets * size == (buckets - 1) * size + size;
    }
  }

  lemma {:induction false} SlotsInBucket(slots: set<Slot>, bucket: nat, size: nat)
    requires forall s :: s in slots ==> s.bucket == bucket && s.pos < size
    ensures |slots| <= size
  {
    if size == 0 {
      if s :| s in slots {
        assert false;
      }
      assert slots == {};
    } else {
      SlotsInBucket(slots - {Slot(bucket, size - 1)}, bucket, size - 1);
    }
  }

  lemma {:induction false} SubsetSize<T>(a: set<T>, b: set<T>)
    requires a <= b
    ensures |a| <= |b|
  {
    assert b == a + (b - a);
  }

  // ---- the states loading goes through ----

  // The first n ids loaded, with the new-table slots in `listed` filled in.
  ghost function Part(m: Man, n: nat, listed: set<Slot>, idCount: int): Man {
    Man(m.key, idCount, PartInfos(m, n, listed), PartAddr(m, n), seq(n, k => k),
        m.nTried, PartTriedTab(m, n), m.nNew, PartNewTab(m, listed), 1)
  }

  ghost function PartInfos(m: Man, n: nat, listed: set<Slot>): map<int, AddrInfo> {
    map k | 0 <= k < n && k < |Order(m)| && Order(m)[k] in m.info :: PartInfo(m, k, listed)
  }

  ghost function PartAddr(m: Man, n: nat): map<NetAddr, int> {
    map a | a in m.addr && IndexOf(m, m.addr[a]) < n :: IndexOf(m, m.addr[a])
  }

  ghost function PartTriedTab(m: Man, n: nat): Table {
    map s | s in m.triedTab && IndexOf(m, m.triedTab[s]) < n :: IndexOf(m, m.triedTab[s])
  }

  ghost function PartNewTab(m: Man, listed: set<Slot>): Table {
    map s | s in m.newTab && s in listed :: IndexOf(m, m.newTab[s])
  }

  ghost function PartInfo(m: Man, k: int, listed: set<Slot>): AddrInfo
    requires 0 <= k < |Order(m)| && Order(m)[k] in m.info
  {
    var id := Order(m)[k];
    Loaded(m.info[id], k).(refCount := |Slots(m.newTab, id) * listed|)
  }

  // Reading one more entry of the new section.
  lemma {:induction false} PartNew(env: Env, m: Man, n: nat, idCount: int)
    requires Inv(env, m) && n < |NewOrder(m)|
    ensures Order(m)[n] in m.info
    ensures var p, i := Part(m, n, {}, idCount), FreshInfo(ToStored(m.info[Order(m)[n]])).(randomPos := n);
            Part(m, n + 1, {}, idCount) == p.(info := p.info[n := i], addr := p.addr[i.Net() := n], random := p.random + [n])
  {
    hide Between, PartInfos, PartAddr, PartTriedTab, PartNewTab;
    IndexAt(m, n);
    PartIndexesNext(env, m, n);
    assert seq(n + 1, k => k) == seq(n, k => k) + [n];
  }

  lemma {:induction false} PartIndexesNext(env: Env, m: Man, n: nat)
    requires Inv(env, m) && n < |Order(m)|
    ensures Order(m)[n] in m.info
    ensures var i := m.info[Order(m)[n]]; var slot := TriedSlot(env, m.key, i.address.service);
            && PartInfos(m, n + 1, {}) == PartInfos(m, n, {})[n := FreshInfo(ToStored(i)).(randomPos := n, inTried := i.inTried)]
            && PartAddr(m, n + 1) == PartAddr(m, n)[i.Net() := n]
            && PartTriedTab(m, n + 1) == (if i.inTried then PartTriedTab(m, n)[slot := n] else PartTriedTab(m, n))
            && (i.inTried ==> slot !in PartTriedTab(m, n))
  {
    hide Between, IndexOf, Order, PartInfo, PartInfos;
    NextIndexes(env, m, n);
    var i := m.info[Order(m)[n]];
    var slot := TriedSlot(env, m.key, i.address.service);
    PartInfosNext(m, n);
    assert PartAddr(m, n + 1) == PartAddr(m, n)[i.Net() := n];
    assert PartTriedTab(m, n + 1) == (if i.inTried then PartTriedTab(m, n)[slot := n] else PartTriedTab(m, n));
  }

  lemma {:induction false} PartInfosNext(m: Man, n: nat)
    requires n < |Order(m)| && Order(m)[n] in m.info
    ensures var i := m.info[Order(m)[n]];
            PartInfos(m, n + 1, {}) == PartInfos(m, n, {})[n := FreshInfo(ToStored(i)).(randomPos := n, inTried := i.inTried)]
  {
    hide IndexOf, Order;
    var i := m.info[Order(m)[n]];
    assert PartInfo(m, n, {}) == FreshInfo(ToStored(i)).(randomPos := n, inTried := i.inTried) by {
      assert Slots(m.newTab, Order(m)[n]) * {} == {};
    }
    hide PartInfo;
    assert PartInfos(m, n + 1, {}) == PartInfos(m, n, {})[n := PartInfo(m, n, {})];
  }

  // Who gets index n: the id at position n, through its address and its slot.
  lemma {:induction false} NextIndexes(env: Env, m: Man, n: nat)
    requires Inv(env, m) && n < |Order(m)|
    ensures var id := Order(m)[n];
            && id in m.info
            && (forall a :: a in m.addr ==> (IndexOf(m, m.addr[a]) == n <==> a == m.info[id].Net()))
            && (forall s :: s in m.triedTab ==> (IndexOf(m, m.triedTab[s]) == n <==>
                  m.info[id].inTried && s == TriedSlot(env, m.key, m.info[id].address.service)))
            && m.info[id].Net() in m.addr
            && (m.info[id].inTried ==> TriedSlot(env, m.key, m.info[id].address.service) in m.triedTab)
  {
    hide CountsOk, IdsOk, RandomOk, NewOk, RefsOk;
    IndexAt(m, n);
    var id := Order(m)[n];
    forall a | a in m.addr
      ensures IndexOf(m, m.addr[a]) == n <==> a == m.info[id].Net()
    {
      OrderAt(env, m, m.addr[a]);
    }
    forall s | s in m.triedTab
      ensures IndexOf(m, m.triedTab[s]) == n <==> m.info[id].inTried && s == TriedSlot(env, m.key, m.info[id].address.service)
    {
      OrderAt(env, m, m.triedTab[s]);
    }
  }

  // Reading one more entry of the tried section: its slot is free.
  lemma {:induction false} PartTried(env: Env, m: Man, n: nat)
    requires Inv(env, m) && |NewOrder(m)| <= n < |Order(m)|
    ensures Order(m)[n] in m.info
    ensures var p, i := Part(m, n, {}, n), FreshInfo(ToStored(m.info[Order(m)[n]])).(randomPos := n, inTried := true);
            var slot := TriedSlot(env, m.key, i.address.service);
            && slot !in p.triedTab
            && Part(m, n + 1, {}, n + 1)
               == p.(info := p.info[n := i], addr := p.addr[i.Net() := n], random := p.random + [n],
                     triedTab := p.triedTab[slot := n], idCount := n + 1)
  {
    hide Between, PartInfos, PartAddr, PartTriedTab, PartNewTab;
    IndexAt(m, n);
    PartIndexesNext(env, m, n);
    assert seq(n + 1, k => k) == seq(n, k => k) + [n];
  }

  // Reading one more index of the new table: the slot is free, the entry hashes to
  // it, and the entry has fewer references than it may have.
  lemma {:induction false} PartListed(env: Env, m: Man, listed: set<Slot>, s: Slot)
    requires Inv(env, m) && s in m.newTab && s !in listed
    ensures m.newTab[s] in m.info && IndexOf(m, m.newTab[s]) < |NewOrder(m)|
    ensures var total, k := |Order(m)|, IndexOf(m, m.newTab[s]);
            var p := Part(m, total, listed, total);
            && k in p.info && s !in p.newTab
            && s.pos == NewPosition(env, m.key, s.bucket, p.info[k].address.service)
            && p.info[k].refCount < NEW_BUCKETS_PER_ADDRESS
            && Part(m, total, listed + {s}, total)
               == p.(info := p.info[k := p.info[k].(refCount := p.info[k].refCount + 1)], newTab := p.newTab[s := k])
  {
    hide CountsOk, IdsOk, RandomOk, AddrOk, TriedOk, PartInfos, PartAddr, PartTriedTab, PartNewTab;
    var total, id := |Order(m)|, m.newTab[s];
    ListedNotLoose(env, m, s, {});
    OrderAt(env, m, id);
    PartListedTables(env, m, listed, s);
  }

  lemma {:induction false} PartListedTables(env: Env, m: Man, listed: set<Slot>, s: Slot)
    requires NewOk(env, m) && s in m.newTab && s !in listed && m.newTab[s] in m.info
    requires IndexOf(m, m.newTab[s]) < |Order(m)| && Order(m)[IndexOf(m, m.newTab[s])] == m.newTab[s]
    ensures var total, k := |Order(m)|, IndexOf(m, m.newTab[s]);
            var infos := PartInfos(m, total, listed);
            && k in infos && infos[k].address == m.info[m.newTab[s]].address
            && infos[k].refCount < m.info[m.newTab[s]].refCount
            && PartInfos(m, total, listed + {s}) == infos[k := infos[k].(refCount := infos[k].refCount + 1)]
            && s !in PartNewTab(m, listed) && PartNewTab(m, listed + {s}) == PartNewTab(m, listed)[s := k]
  {
    hide NewOk, IndexOf, Order, PartInfo, PartInfos;
    PartInfoListed(env, m, listed, s);
    PartInfosListed(m, listed, s);
    assert PartNewTab(m, listed + {s}) == PartNewTab(m, listed)[s := IndexOf(m, m.newTab[s])];
  }

  lemma {:induction false} PartInfosListed(m: Man, listed: set<Slot>, s: Slot)
    requires s in m.newTab && m.newTab[s] in m.info
    requires IndexOf(m, m.newTab[s]) < |Order(m)| && Order(m)[IndexOf(m, m.newTab[s])] == m.newTab[s]
    ensures var total, k := |Order(m)|, IndexOf(m, m.newTab[s]);
            && PartInfos(m, total, listed + {s}) == PartInfos(m, total, listed)[k := PartInfo(m, k, listed + {s})]
            && k in PartInfos(m, total, listed) && PartInfos(m, total, listed)[k] == PartInfo(m, k, listed)
  {
    hide IndexOf, Order, PartInfo;
    var total, k := |Order(m)|, IndexOf(m, m.newTab[s]);
    forall j | 0 <= j < total && j != k
      ensures Order(m)[j] in m.info && PartInfo(m, j, listed + {s}) == PartInfo(m, j, listed)
    {
      IndexAt(m, j);
      PartInfoUnlisted(m, j, listed, s);
    }
    assert PartInfos(m, total, listed + {s}) == PartInfos(m, total, listed)[k := PartInfo(m, k, listed + {s})];
  }

  lemma {:induction false} PartInfoListed(env: Env, m: Man, listed: set<Slot>, s: Slot)
    requires NewOk(env, m) && s in m.newTab && s !in listed && m.newTab[s] in m.info
    requires IndexOf(m, m.newTab[s]) < |Order(m)| && Order(m)[IndexOf(m, m.newTab[s])] == m.newTab[s]
    ensures var k := IndexOf(m, m.newTab[s]);
            && PartInfo(m, k, listed).address == m.info[m.newTab[s]].address
            && PartInfo(m, k, listed).refCount < m.info[m.newTab[s]].refCount
            && PartInfo(m, k, listed + {s}) == PartInfo(m, k, listed).(refCount := PartInfo(m, k, listed).refCount + 1)
  {
    hide IndexOf, Order;
    var id := m.newTab[s];
    var slots := Slots(m.newTab, id);
    assert slots * (listed + {s}) == slots * listed + {s};
    SubsetSize(slots * listed + {s}, slots);
  }

  lemma {:induction false} PartInfoUnlisted(m: Man, j: nat, listed: set<Slot>, s: Slot)
    requires j < |Order(m)| && Order(m)[j] in m.info && s in m.newTab && m.newTab[s] != Order(m)[j]
    ensures PartInfo(m, j, listed + {s}) == PartInfo(m, j, listed)
  {
    hide IndexOf, Order;
    assert Slots(m.newTab, Order(m)[j]) * (listed + {s}) == Slots(m.newTab, Order(m)[j]) * listed;
  }

  // With everything read, the state is the renumbered manager.
  lemma {:induction false} PartWhole(env: Env, m: Man)
    requires Inv(env, m)
    ensures Part(m, |Order(m)|, m.newTab.Keys, |Order(m)|) == Renumber(m)
    ensures forall k :: 0 <= k < |Order(m)| ==>
              k in Renumber(m).info && (Renumber(m).info[k].inTried || Renumber(m).info[k].refCount > 0)
  {
    hide Between, IndexOf, Order, PartInfos, PartAddr, PartTriedTab, PartNewTab;
    PartWholeInfos(env, m);
    PartWholeTables(env, m);
  }

  lemma {:induction false} PartWholeInfos(env: Env, m: Man)
    requires Inv(env, m)
    ensures PartInfos(m, |Order(m)|, m.newTab.Keys) == Renumber(m).info
    ensures forall k :: 0 <= k < |Order(m)| ==>
              k in Renumber(m).info && (Renumber(m).info[k].inTried || Renumber(m).info[k].refCount > 0)
  {
    hide Between, IndexOf, Order, PartInfo;
    forall k | 0 <= k < |Order(m)|
      ensures Order(m)[k] in m.info && PartInfo(m, k, m.newTab.Keys) == Loaded(m.info[Order(m)[k]], k)
      ensures m.info[Order(m)[k]].inTried || m.info[Order(m)[k]].refCount > 0
    {
      PartInfoWhole(env, m, k);
    }
    assert PartInfos(m, |Order(m)|, m.newTab.Keys) == Renumber(m).info;
  }

  lemma {:induction false} PartInfoWhole(env: Env, m: Man, k: nat)
    requires Inv(env, m) && k < |Order(m)|
    ensures Order(m)[k] in m.info && PartInfo(m, k, m.newTab.Keys) == Loaded(m.info[Order(m)[k]], k)
    ensures m.info[Order(m)[k]].inTried || m.info[Order(m)[k]].refCount > 0
  {
    hide CountsOk, IdsOk, RandomOk, AddrOk, TriedOk, RefsOk, IndexOf, Order;
    IndexAt(m, k);
    ListedSomewhere(env, m, Order(m)[k]);
    assert Slots(m.newTab, Order(m)[k]) * m.newTab.Keys == Slots(m.newTab, Order(m)[k]);
  }

  lemma {:induction false} PartWholeTables(env: Env, m: Man)
    requires Inv(env, m)
    ensures PartAddr(m, |Order(m)|) == Renumber(m).addr
    ensures PartTriedTab(m, |Order(m)|) == Renumber(m).triedTab
    ensures PartNewTab(m, m.newTab.Keys) == Renumber(m).newTab
  {
    hide Between, IndexOf, Order;
    AllIndexed(env, m);
    var r := Renumber(m);
    assert PartAddr(m, |Order(m)|) == r.addr;
    assert PartTriedTab(m, |Order(m)|) == r.triedTab;
    assert PartNewTab(m, m.newTab.Keys) == r.newTab;
  }

  lemma {:induction false} AllIndexed(env: Env, m: Man)
    requires Inv(env, m)
    ensures forall a :: a in m.addr ==> IndexOf(m, m.addr[a]) < |Order(m)|
    ensures forall s :: s in m.triedTab ==> IndexOf(m, m.triedTab[s]) < |Order(m)|
  {
    hide CountsOk, IdsOk, RandomOk, NewOk, RefsOk;
    forall a | a in m.addr
      ensures IndexOf(m, m.addr[a]) < |Order(m)|
    {
      OrderAt(env, m, m.addr[a]);
    }
    forall s | s in m.triedTab
      ensures IndexOf(m, m.triedTab[s]) < |Order(m)|
    {
      OrderAt(env, m, m.triedTab[s]);
    }
  }

  // ---- reading ----

  function Cleared(m: Man, key: nat): Man {
    m.(random := [], key := key, newTab := map[], triedTab := map[], idCount := 0, nTried := 0, nNew := 0, lastGood := 1)
  }

  // Clear() forgets to empty mapInfo and mapAddr: it leaves a consistent manager
  // exactly when they were empty.
  lemma {:induction false} ClearKeeps(env: Env, m: Man, key: nat)
    ensures Inv(env, Cleared(m, key)) <==> m.info == map[] && m.addr == map[]
  {
    var c := Cleared(m, key);
    assert m.info == map[] && m.addr == map[] ==> TriedIds(c) == {} && NewIds(c) == {};
    if Inv(env, c) {
      forall n
        ensures n !in m.info.Keys
      {
      }
      forall a
        ensures a !in m.addr.Keys
      {
      }
    }
  }

  method FillFree(a: array2<int>)
    modifies a
    ensures TableOf(a) == map[]
  {
    var bucket := 0;
    while bucket < a.Length0
      invariant 0 <= bucket <= a.Length0
      invariant forall b, p :: 0 <= b < bucket && 0 <= p < a.Length1 ==> a[b, p] == FREE
    {
      var entry := 0;
      while entry < a.Length1
        invariant 0 <= entry <= a.Length1
        invariant forall b, p :: 0 <= b < bucket && 0 <= p < a.Length1 ==> a[b, p] == FREE
        invariant forall p :: 0 <= p < entry ==> a[bucket, p] == FREE
      {
        a[bucket, entry] := FREE;
        entry := entry + 1;
      }
      bucket := bucket + 1;
    }
  }

  // `key` stands for GetRandHash().
  method Clear(man: CAddrMan, key: nat)
    requires man.Valid()
    modifies man, man.vvNew, man.vvTried
    ensures man.Valid() && man.State() == Cleared(old(man.State()), key)
  {
    man.vRandom := [];
    man.nKey := key;
    FillFree(man.vvNew);
    FillFree(man.vvTried);
    man.nIdCount := 0;
    man.nTried := 0;
    man.nNew := 0;
    man.nLastGood := 1;
  }

  // What holds of every manager being loaded, whatever the stream says.
  ghost predicate Loading(man: CAddrMan)
    reads man, man.vvNew, man.vvTried
  {
    && man.Valid() && RandomOk(man.State())
    && (forall k :: 0 <= k < man.nNew ==> k in man.mapInfo)
  }

  // The section of new entries.
  method ReadNew(man: CAddrMan, stream: seq<Token>, usable: bool) returns (ok: bool, rest: seq<Token>)
    requires man.Valid() && man.mapInfo == map[] && man.vRandom == []
    modifies man, man.vvNew
    ensures ok ==> Loading(man) && (forall k :: k in man.mapInfo ==> k < man.nNew)
    ensures NewSection(man.env, old(man.State()), stream, 0, usable) == if ok then Some(Progress(man.State(), rest)) else None
  {
    hide RandomOk, EnterNew;
    ghost var m := man.State();
    ok, rest := true, stream;
    var n := 0;
    EmptyRandom(m);
    while n < man.nNew
      invariant 0 <= n && (n <= man.nNew || n == 0) && man.nNew == m.nNew
      invariant man.Valid() && RandomOk(man.State()) && forall k :: k in man.mapInfo <==> 0 <= k < n
      invariant NewSection(man.env, man.State(), rest, n, usable) == NewSection(man.env, m, stream, 0, usable)
    {
      if |rest| == 0 || !rest[0].Info? {
        ok := false;
        return;
      }
      ReadOneNew(man, rest[0].stored, n, usable);
      rest := rest[1..];
      n := n + 1;
    }
  }

  method ReadOneNew(man: CAddrMan, stored: Stored, n: nat, usable: bool)
    requires man.Valid() && RandomOk(man.State())
    requires forall k :: k in man.mapInfo <==> 0 <= k < n
    modifies man, man.vvNew
    ensures man.Valid() && RandomOk(man.State()) && man.nNew == old(man.nNew)
    ensures forall k :: k in man.mapInfo <==> 0 <= k < n + 1
    ensures man.State() == EnterNew(man.env, old(man.State()), stored, n, usable)
  {
    hide RandomOk, Enter;
    EnterNewRandom(man.env, man.State(), stored, n, usable);
    Entered(man.State(), n, FreshInfo(stored));
    EnterEntry(man, n, FreshInfo(stored));
    if !usable {
      var bucket := man.env.newBucket(man.nKey, stored.address.service, stored.source);
      var pos := man.env.position(man.nKey, true, bucket, stored.address.service);
      SlotIn(man.vvNew, bucket, pos);
      if man.vvNew[bucket, pos] == FREE {
        man.Link_(bucket, pos, n);
      }
    }
  }

  method EnterEntry(man: CAddrMan, id: int, info: AddrInfo)
    modifies man
    ensures man.State() == Enter(old(man.State()), id, info)
  {
    man.mapInfo := man.mapInfo[id := info.(randomPos := |man.vRandom|)];
    man.mapAddr := man.mapAddr[info.Net() := id];
    man.vRandom := man.vRandom + [id];
  }

  lemma {:induction false} EnterNewRandom(env: Env, m: Man, st: Stored, n: int, usable: bool)
    requires RandomOk(m) && n !in m.info
    ensures RandomOk(EnterNew(env, m, st, n, usable)) && EnterNew(env, m, st, n, usable).info.Keys == m.info.Keys + {n}
  {
    hide RandomOk;
    EnterRandom(m, n, FreshInfo(st));
    var entered, s := Enter(m, n, FreshInfo(st)), NewSlot(env, m.key, st.address.service, st.source);
    if !usable && s !in m.newTab {
      RefChangeSame(entered, Link(entered, s, n), n);
      RandomTransfer(entered, Link(entered, s, n));
    }
  }

  ghost predicate ListsInfo(m: Man, ids: seq<int>) {
    forall k :: 0 <= k < |ids| ==> ids[k] in m.info
  }

  lemma {:induction false} InfosHead(m: Man, ids: seq<int>, n: nat, tail: seq<Token>)
    requires ListsInfo(m, ids) && n < |ids|
    ensures var s := Infos(m, ids[n..]) + tail;
            |s| > 0 && s[0] == Info(ToStored(m.info[ids[n]])) && s[1..] == Infos(m, ids[n + 1..]) + tail
  {
    assert ids[n..][1..] == ids[n + 1..];
  }

  lemma {:induction false} InfosDone(m: Man, ids: seq<int>, tail: seq<Token>)
    ensures ids[|ids|..] == [] && Infos(m, []) + tail == tail
  {
  }

  lemma {:induction false} NewOrderAt(m: Man, n: nat)
    requires n < |NewOrder(m)|
    ensures n < |Order(m)| && Order(m)[n] == NewOrder(m)[n] && ListsInfo(m, NewOrder(m))
  {
  }

  lemma {:induction false} TriedOrderAt(m: Man, n: nat)
    requires n < |TriedOrder(m)|
    ensures |NewOrder(m)| + n < |Order(m)| && Order(m)[|NewOrder(m)| + n] == TriedOrder(m)[n] && ListsInfo(m, TriedOrder(m))
  {
  }

  lemma {:induction false} OrdersListInfo(m: Man)
    ensures ListsInfo(m, NewOrder(m)) && ListsInfo(m, TriedOrder(m))
    ensures |Order(m)| == |NewOrder(m)| + |TriedOrder(m)|
  {
  }

  lemma {:induction false} EmptyRandom(m: Man)
    requires m.info == map[] && m.random == []
    ensures RandomOk(m)
  {
  }

  lemma {:induction false} PartNNew(m: Man, n: nat, listed: set<Slot>, idCount: int)
    requires n <= |Order(m)|
    ensures Part(m, n, listed, idCount).nNew == m.nNew && Part(m, n, listed, idCount).nTried == m.nTried
    ensures Part(m, n, listed, idCount).idCount == idCount
  {
  }

  // The section of tried entries.
  method ReadTried(man: CAddrMan, stream: seq<Token>) returns (ok: bool, rest: seq<Token>)
    requires Loading(man) && (forall k :: k in man.mapInfo ==> k < man.nIdCount)
    modifies man, man.vvTried
    ensures ok ==> Loading(man)
    ensures TriedSection(man.env, old(man.State()), stream, old(man.nTried)) == if ok then Some(Progress(man.State(), rest)) else None
  {
    hide RandomOk, EnterTried, Losing;
    ghost var m := man.State();
    ok, rest := true, stream;
    LosingNone(m);
    var nLost := 0;
    var n := 0;
    while n < man.nTried
      invariant 0 <= n && (n <= man.nTried || n == 0) && man.nTried == m.nTried
      invariant Loading(man) && (forall k :: k in man.mapInfo ==> k < man.nIdCount)
      invariant TriedSection(man.env, Losing(man.State(), nLost), rest, m.nTried - n) == TriedSection(man.env, m, stream, m.nTried)
    {
      if |rest| == 0 || !rest[0].Info? {
        ok := false;
        return;
      }
      nLost := ReadTriedRound(man, rest[0].stored, nLost);
      rest := rest[1..];
      n := n + 1;
    }
    ghost var read := man.State();
    man.nTried := man.nTried - nLost;
    LosingEnds(read, man.State(), nLost);
  }

  method ReadTriedRound(man: CAddrMan, stored: Stored, nLost: int) returns (nLost': int)
    requires Loading(man) && (forall k :: k in man.mapInfo ==> k < man.nIdCount)
    modifies man, man.vvTried
    ensures Loading(man) && (forall k :: k in man.mapInfo ==> k < man.nIdCount) && man.nTried == old(man.nTried)
    ensures Losing(man.State(), nLost') == EnterTried(man.env, Losing(old(man.State()), nLost), stored)
  {
    hide RandomOk, EnterTried, Losing;
    LosingOne(man.env, man.State(), stored, nLost);
    var kept := ReadOneTried(man, stored);
    nLost' := if kept then nLost else nLost + 1;
  }

  // Lost entries are taken off the counter at the end.
  ghost function Losing(m: Man, nLost: int): Man {
    m.(nTried := m.nTried - nLost)
  }

  lemma {:induction false} LosingNone(m: Man)
    ensures Losing(m, 0) == m
  {
  }

  lemma {:induction false} LosingEnds(m: Man, r: Man, nLost: int)
    requires RandomOk(m) && r == m.(nTried := m.nTried - nLost)
    ensures r == Losing(m, nLost) && RandomOk(r)
  {
    SameRandomOk(m, r);
  }

  lemma {:induction false} LosingOne(env: Env, m: Man, st: Stored, nLost: int)
    ensures EnterTried(env, Losing(m, nLost), st)
            == (if TriedSlot(env, m.key, st.address.service) in m.triedTab then Losing(m, nLost + 1)
                else Losing(EnterTried(env, m, st), nLost))
  {
  }

  method ReadOneTried(man: CAddrMan, stored: Stored) returns (kept: bool)
    requires Loading(man) && (forall k :: k in man.mapInfo ==> k < man.nIdCount)
    modifies man, man.vvTried
    ensures Loading(man) && (forall k :: k in man.mapInfo ==> k < man.nIdCount) && man.nTried == old(man.nTried)
    ensures kept <==> TriedSlot(man.env, old(man.nKey), stored.address.service) !in old(man.State()).triedTab
    ensures man.State() == if kept then EnterTried(man.env, old(man.State()), stored) else old(man.State())
  {
    hide RandomOk;
    var i := FreshInfo(stored);
    var bucket := man.env.triedBucket(man.nKey, i.address.service);
    var pos := man.env.position(man.nKey, false, bucket, i.address.service);
    SlotIn(man.vvTried, bucket, pos);
    kept := man.vvTried[bucket, pos] == FREE;
    if kept {
      StoreTried(man, i.(inTried := true), bucket, pos);
    }
  }

  method StoreTried(man: CAddrMan, info: AddrInfo, bucket: nat, pos: nat)
    requires Loading(man) && (forall k :: k in man.mapInfo ==> k < man.nIdCount)
    requires bucket < TRIED_BUCKET_COUNT && pos < BUCKET_SIZE
    modifies man, man.vvTried
    ensures Loading(man) && (forall k :: k in man.mapInfo ==> k < man.nIdCount) && man.nTried == old(man.nTried)
    ensures man.State() == Enter(old(man.State()), old(man.nIdCount), info)
                           .(idCount := old(man.nIdCount) + 1,
                             triedTab := Written(old(man.State()).triedTab, Slot(bucket, pos), old(man.nIdCount)))
  {
    hide RandomOk;
    ghost var before := man.State();
    var id := man.nIdCount;
    EnterRandom(before, id, info);
    EnterEntry(man, id, info);
    hide Enter;
    ghost var entered := man.State();
    man.SetTried(bucket, pos, id);
    man.nIdCount := id + 1;
    SameRandomOk(entered, man.State());
  }

  lemma {:induction false} SameRandomOk(m: Man, r: Man)
    requires RandomOk(m) && r.info == m.info && r.random == m.random
    ensures RandomOk(r)
  {
  }

  // ---- the positions in the new table ----

  ghost function ListedBelow(m: Man, bucket: int): set<Slot> {
    set s | s in m.newTab && s.bucket < bucket
  }

  ghost function ListedIn(bucket: nat, ps: seq<nat>): set<Slot> {
    set k | 0 <= k < |ps| :: Slot(bucket, ps[k])
  }

  // A bucket read up to its n-th index.
  ghost function ListedUpTo(m: Man, bucket: nat, n: nat): set<Slot>
    requires n <= |Occupied(m, bucket, 0)|
  {
    ListedBelow(m, bucket) + ListedIn(bucket, Occupied(m, bucket, 0)[..n])
  }

  // The next index to read: it is the one written for the n-th occupied position.
  lemma {:induction false} NextIndex(env: Env, m: Man, bucket: nat, n: nat)
    requires Inv(env, m) && n < |Occupied(m, bucket, 0)|
    ensures var s := Slot(bucket, Occupied(m, bucket, 0)[n]);
            && s in m.newTab && s !in ListedUpTo(m, bucket, n)
            && ListedUpTo(m, bucket, n + 1) == ListedUpTo(m, bucket, n) + {s}
  {
    hide Between, Occupied;
    var ps := Occupied(m, bucket, 0);
    NotListedYet(bucket, ps, n);
    assert ps[..n + 1] == ps[..n] + [ps[n]];
    ListedInAppend(bucket, ps[..n], ps[n]);
  }

  lemma {:induction false} NotListedYet(bucket: nat, ps: seq<nat>, n: nat)
    requires n < |ps| && forall i, j :: 0 <= i < j < |ps| ==> ps[i] < ps[j]
    ensures Slot(bucket, ps[n]) !in ListedIn(bucket, ps[..n])
  {
    forall k | 0 <= k < n
      ensures ps[..n][k] != ps[n]
    {
      assert ps[k] < ps[n];
    }
  }

  lemma {:induction false} ListedInAppend(bucket: nat, ps: seq<nat>, p: nat)
    ensures ListedIn(bucket, ps + [p]) == ListedIn(bucket, ps) + {Slot(bucket, p)}
  {
    forall s
      ensures s in ListedIn(bucket, ps + [p]) <==> s in ListedIn(bucket, ps) + {Slot(bucket, p)}
    {
      if s in ListedIn(bucket, ps) {
        var k :| 0 <= k < |ps| && s == Slot(bucket, ps[k]);
        assert (ps + [p])[k] == ps[k];
      }
      assert (ps + [p])[|ps|] == p;
    }
  }

  // Every occupied slot of the bucket is among its occupied positions.
  lemma {:induction false} OccupiedAll(m: Man, bucket: nat, p: nat, x: nat)
    requires p <= x < BUCKET_SIZE && Slot(bucket, x) in m.newTab
    ensures x in Occupied(m, bucket, p)
    decreases BUCKET_SIZE - p
  {
    if p < x {
      OccupiedAll(m, bucket, p + 1, x);
    }
  }

  lemma {:induction false} BucketDone(env: Env, m: Man, bucket: nat)
    requires EnvOk(env) && Inv(env, m)
    ensures ListedUpTo(m, bucket, 0) == ListedBelow(m, bucket)
    ensures ListedUpTo(m, bucket, |Occupied(m, bucket, 0)|) == ListedBelow(m, bucket + 1)
  {
    hide CountsOk, IdsOk, RandomOk, AddrOk, TriedOk, RefsOk, Occupied;
    var ps := Occupied(m, bucket, 0);
    assert ps[..|ps|] == ps;
    assert ListedIn(bucket, ps[..0]) == {};
    forall s
      ensures s in ListedIn(bucket, ps) <==> s in m.newTab && s.bucket == bucket
    {
      if s in m.newTab && s.bucket == bucket {
        OccupiedAll(m, bucket, 0, s.pos);
        var k :| 0 <= k < |ps| && ps[k] == s.pos;
        assert s == Slot(bucket, ps[k]);
      }
    }
  }

  // One bucket of indexes.
  method ReadBucket(man: CAddrMan, stream: seq<Token>, bucket: nat, nSize: int, usable: bool) returns (ok: bool, rest: seq<Token>)
    requires Loading(man) && (usable ==> bucket < NEW_BUCKET_COUNT)
    modifies man, man.vvNew
    ensures ok ==> Loading(man)
    ensures BucketSection(man.env, old(man.State()), stream, bucket, nSize, usable)
            == if ok then Some(Progress(man.State(), rest)) else None
  {
    hide RandomOk, Indexed;
    ghost var m := man.State();
    ok, rest := true, stream;
    var n := 0;
    while n < nSize
      invariant 0 <= n && (n <= nSize || n == 0) && Loading(man)
      invariant BucketSection(man.env, man.State(), rest, bucket, nSize - n, usable)
                == BucketSection(man.env, m, stream, bucket, nSize, usable)
    {
      if |rest| == 0 || !rest[0].Int? {
        ok := false;
        return;
      }
      ReadOneIndex(man, rest[0].n, bucket, usable);
      rest := rest[1..];
      n := n + 1;
    }
  }

  ghost predicate PositionsListed(m: Man, bucket: nat, ps: seq<nat>) {
    forall k :: 0 <= k < |ps| ==> Slot(bucket, ps[k]) in m.newTab
  }

  lemma {:induction false} OccupiedListed(m: Man, bucket: nat)
    ensures PositionsListed(m, bucket, Occupied(m, bucket, 0))
  {
  }

  lemma {:induction false} IndexesHead(m: Man, bucket: nat, ps: seq<nat>, n: nat, tail: seq<Token>)
    requires n < |ps| && PositionsListed(m, bucket, ps[n..])
    ensures PositionsListed(m, bucket, ps[n + 1..]) && Slot(bucket, ps[n]) in m.newTab
    ensures var s := Indexes(m, bucket, ps[n..]) + tail;
            && |s| > 0 && s[0] == Int(IndexOf(m, m.newTab[Slot(bucket, ps[n])]))
            && s[1..] == Indexes(m, bucket, ps[n + 1..]) + tail
  {
    assert ps[n..][1..] == ps[n + 1..];
    assert ps[n..][0] == ps[n];
  }

  lemma {:induction false} IndexesDone(m: Man, bucket: nat, ps: seq<nat>, tail: seq<Token>)
    ensures ps[|ps|..] == [] && Indexes(m, bucket, []) + tail == tail
  {
  }

  method ReadOneIndex(man: CAddrMan, index: int, bucket: nat, usable: bool)
    requires Loading(man) && (usable ==> bucket < NEW_BUCKET_COUNT)
    modifies man, man.vvNew
    ensures Loading(man)
    ensures man.State() == Indexed(man.env, old(man.State()), index, bucket, usable)
  {
    hide RandomOk;
    ghost var before := man.State();
    if 0 <= index < man.nNew {
      var pos := man.env.position(man.nKey, true, bucket, man.mapInfo[index].address.service);
      if usable {
        SlotIn(man.vvNew, bucket, pos);
        if man.vvNew[bucket, pos] == FREE && man.mapInfo[index].refCount < NEW_BUCKETS_PER_ADDRESS {
          man.mapInfo := man.mapInfo[index := man.mapInfo[index].(refCount := man.mapInfo[index].refCount + 1)];
          man.SetNew(bucket, pos, index);
          RandomTransfer(before, man.State());
        }
      }
    }
  }

  // All buckets of indexes.
  method ReadBuckets(man: CAddrMan, stream: seq<Token>, nUBuckets: int, usable: bool) returns (ok: bool)
    requires Loading(man) && (usable ==> nUBuckets == NEW_BUCKET_COUNT)
    modifies man, man.vvNew
    ensures ok ==> Loading(man)
    ensures BucketsSection(man.env, old(man.State()), stream, 0, nUBuckets, usable) == if ok then Some(man.State()) else None
  {
    hide RandomOk, BucketSection;
    ghost var m := man.State();
    ok := true;
    var rest := stream;
    var bucket := 0;
    while bucket < nUBuckets
      invariant 0 <= bucket && (bucket <= nUBuckets || bucket == 0) && Loading(man)
      invariant BucketsSection(man.env, man.State(), rest, bucket, nUBuckets, usable)
                == BucketsSection(man.env, m, stream, 0, nUBuckets, usable)
    {
      if |rest| == 0 || !rest[0].Int? {
        ok := false;
        return;
      }
      ok, rest := ReadBucket(man, rest[1..], bucket, rest[0].n, usable);
      if !ok {
        return;
      }
      bucket := bucket + 1;
    }
  }

  lemma {:induction false} BelowEnds(env: Env, m: Man)
    requires Inv(env, m)
    ensures ListedBelow(m, 0) == {} && ListedBelow(m, NEW_BUCKET_COUNT) == m.newTab.Keys
  {
    hide CountsOk, IdsOk, RandomOk, AddrOk, TriedOk, RefsOk;
  }

  // Exactly the entries left without a reference are dropped.
  method Prune(man: CAddrMan)
    requires Loading(man)
    modifies man
    ensures man.Valid() && RandomOk(man.State())
    ensures PrunedTo(old(man.State()), man.State(), Unreferenced(old(man.State())))
    ensures Unreferenced(old(man.State())) == {} ==> man.State() == old(man.State())
  {
    hide PrunedTo, Unreferenced, RandomOk, Delete;
    ghost var m := man.State();
    var todo := man.mapInfo.Keys;
    PruneStart(m, todo);
    while exists id :: id in todo
      invariant man.Valid() && RandomOk(man.State()) && todo <= man.mapInfo.Keys
      invariant PrunedTo(m, man.State(), Unreferenced(m) - todo)
      invariant Unreferenced(m) - todo == {} ==> man.State() == m
      decreases todo
    {
      var id :| id in todo;
      PruneTurn(m, man.State(), todo, id);
      if !man.mapInfo[id].inTried && man.mapInfo[id].refCount == 0 {
        PruneOne(man, id);
      }
      todo := todo - {id};
    }
    assert Unreferenced(m) - todo == Unreferenced(m);
  }

  lemma {:induction false} PruneStart(m: Man, todo: set<int>)
    requires todo == m.info.Keys
    ensures Unreferenced(m) - todo == {} && PrunedTo(m, m, Unreferenced(m) - todo)
  {
    NothingPruned(m);
    assert Unreferenced(m) - todo == {};
  }

  lemma {:induction false} PruneTurn(m: Man, r: Man, todo: set<int>, id: int)
    requires RandomOk(r) && id in todo && todo <= r.info.Keys && PrunedTo(m, r, Unreferenced(m) - todo)
    ensures if !r.info[id].inTried && r.info[id].refCount == 0
            then PrunedTo(m, Delete(r, id), Unreferenced(m) - (todo - {id})) && Unreferenced(m) - (todo - {id}) != {}
            else Unreferenced(m) - (todo - {id}) == Unreferenced(m) - todo
  {
    hide RandomOk, Delete, Addresses;
    var gone := Unreferenced(m) - todo;
    assert r.info[id] == m.info[id].(randomPos := r.info[id].randomPos);
    if !r.info[id].inTried && r.info[id].refCount == 0 {
      assert id in Unreferenced(m);
      assert Unreferenced(m) - (todo - {id}) == gone + {id};
      DeletePruned(m, r, gone, id);
    }
  }

  lemma {:induction false} NothingPruned(m: Man)
    ensures PrunedTo(m, m, {})
  {
    assert Addresses(m, {}) == {} && m.addr - {} == m.addr;
  }

  lemma {:induction false} DeletePruned(m: Man, r: Man, gone: set<int>, id: int)
    requires PrunedTo(m, r, gone) && RandomOk(r) && id in r.info && id !in gone
    ensures PrunedTo(m, Delete(r, id), gone + {id})
  {
    hide RandomOk;
    var d := Delete(r, id);
    DeleteSurvives(r, id);
    SwapToLast(r, id);
    DeleteFields(r, id);
    hide Delete;
    assert Addresses(m, gone + {id}) == Addresses(m, gone) + {r.info[id].Net()};
    assert d.addr == m.addr - Addresses(m, gone + {id});
    forall n | n in d.info
      ensures d.info[n] == m.info[n].(randomPos := d.info[n].randomPos)
    {
      assert r.info[n] == m.info[n].(randomPos := r.info[n].randomPos);
    }
  }

  method PruneOne(man: CAddrMan, id: int)
    requires man.Valid() && RandomOk(man.State())
    requires id in man.mapInfo && !man.mapInfo[id].inTried && man.mapInfo[id].refCount == 0
    modifies man
    ensures man.Valid() && RandomOk(man.State()) && man.State() == Delete(old(man.State()), id)
    ensures man.mapInfo.Keys == old(man.mapInfo.Keys) - {id}
  {
    DeleteRandomOk(man.State(), id);
    hide RandomOk, Delete;
    man.Delete_(id);
  }

  lemma {:induction false} DeleteRandomOk(m: Man, id: int)
    requires RandomOk(m) && id in m.info
    ensures RandomOk(Delete(m, id)) && Delete(m, id).info.Keys == m.info.Keys - {id}
  {
    hide RandomOk, Survives, SwapRandom, DropLast, SameAddresses, SameTried, SameRefs;
    SwapToLast(m, id);
    SwapRandomOk(m, m.info[id].randomPos, |m.random| - 1);
    var r := SwapRandom(m, m.info[id].randomPos, |m.random| - 1);
    DropLastRandom(r, id);
    assert Delete(m, id) == DropLast(r, id);
    hide Delete;
    DeleteSurvives(m, id);
  }

  lemma {:induction false} DropLastRandom(r: Man, id: int)
    requires RandomOk(r) && id in r.info && |r.random| > 0 && r.random[|r.random| - 1] == id
    ensures RandomOk(DropLast(r, id))
  {
    var d := DropLast(r, id);
    assert d.info.Keys == r.info.Keys - {id};
    assert r.info[id].randomPos == |r.random| - 1;
    forall i | 0 <= i < |d.random|
      ensures d.random[i] in d.info && d.info[d.random[i]].randomPos == i
    {
      assert r.random[i] in r.info && r.info[r.random[i]].randomPos == i;
    }
    forall n | n in d.info
      ensures 0 <= d.info[n].randomPos < |d.random| && d.random[d.info[n].randomPos] == n
    {
      assert r.random[r.info[n].randomPos] == n;
    }
  }

  // Loading computes Load and drops what has no reference. For streams that were not saved,
  // the result is consistent if and only if the counters are not negative and no entry that
  // stays shares its address with another. A saved manager is given back, with its ids
  // renumbered: nothing is lost. False models the failure exception.
  method Unserialize(man: CAddrMan, stream: seq<Token>, key: nat) returns (ok: bool)
    requires man.Valid() && man.mapInfo == map[] && man.mapAddr == map[]
    modifies man, man.vvNew, man.vvTried
    ensures ok <==> Load(man.env, stream).Some?
    ensures ok ==> man.Valid() && PrunedTo(Load(man.env, stream).value, man.State(), Unreferenced(Load(man.env, stream).value))
    ensures ok ==> (Inv(man.env, man.State()) <==>
                    stream[3].n >= 0 && stream[4].n >= 0 && KeptApart(Load(man.env, stream).value))
    ensures ok && stream[3].n >= 0 && stream[4].n >= 0 && DistinctAddresses(stream) ==> Inv(man.env, man.State())
    ensures forall m :: Inv(man.env, m) && stream == Save(m) ==> ok && man.State() == Renumber(m)
  {
    hide Between, RandomOk, Renumber, Save, PrunedTo, Unreferenced, KeptApart, DistinctAddresses, Load;
    ok := ReadAll(man, stream, key);
    if ok {
      Prune(man);
      LoadConsistent(man.env, stream, man.State());
      if DistinctAddresses(stream) {
        LoadApart(man.env, stream);
      }
    }
    forall m | Inv(man.env, m) && stream == Save(m)
      ensures ok && man.State() == Renumber(m)
    {
      LoadSaved(man.env, m);
      NoneUnreferenced(man.env, m);
    }
  }

  method ReadAll(man: CAddrMan, stream: seq<Token>, key: nat) returns (ok: bool)
    requires man.Valid() && man.mapInfo == map[] && man.mapAddr == map[]
    modifies man, man.vvNew, man.vvTried
    ensures ok ==> Loading(man)
    ensures Load(man.env, stream) == if ok then Some(man.State()) else None
  {
    hide RandomOk, ReadFrom, ToggleMark;
    ok := false;
    Clear(man, key);
    if |stream| < 6 || !(stream[0].Byte? && stream[1].Byte?) {
      return;
    }
    var nVersion, nKeySize := stream[0].b, stream[1].b;
    if nKeySize != KEY_SIZE || !(stream[2].Key? && stream[3].Int? && stream[4].Int? && stream[5].Int?) {
      return;
    }
    man.nKey, man.nNew, man.nTried := stream[2].key, stream[3].n, stream[4].n;
    var nUBuckets := if nVersion != 0 then ToggleMark(stream[5].n) else stream[5].n;
    if man.nNew > NEW_BUCKET_COUNT * BUCKET_SIZE || man.nTried > TRIED_BUCKET_COUNT * BUCKET_SIZE {
      return;
    }
    var usable := nVersion == VERSION && nUBuckets == NEW_BUCKET_COUNT;
    assert man.State() == Start(stream) && nUBuckets == UBuckets(stream) && usable == Usable(stream);
    ok := ReadSections(man, stream[6..], nUBuckets, usable);
  }

  method ReadSections(man: CAddrMan, stream: seq<Token>, nUBuckets: int, usable: bool) returns (ok: bool)
    requires man.Valid() && man.mapInfo == map[] && man.vRandom == [] && (usable ==> nUBuckets == NEW_BUCKET_COUNT)
    modifies man, man.vvNew, man.vvTried
    ensures ok ==> Loading(man)
    ensures ReadFrom(man.env, old(man.State()), stream, nUBuckets, usable) == if ok then Some(man.State()) else None
  {
    hide RandomOk, NewSection, TriedSection, BucketsSection;
    var rest;
    ok, rest := ReadNew(man, stream, usable);
    if !ok {
      return;
    }
    ghost var read := man.State();
    man.nIdCount := man.nNew;
    SameRandomOk(read, man.State());
    ok, rest := ReadTried(man, rest);
    if !ok {
      return;
    }
    ok := ReadBuckets(man, rest, nUBuckets, usable);
  }

  // ---- loading what was saved ----

  lemma {:induction false} PartRandom(m: Man, n: nat, listed: set<Slot>, idCount: int)
    requires n <= |Order(m)|
    ensures |Part(m, n, listed, idCount).random| == n && Part(m, n, listed, idCount).key == m.key
  {
  }

  lemma {:induction false} NewSaved(env: Env, m: Man, n: nat, tail: seq<Token>)
    requires Inv(env, m) && n <= |NewOrder(m)| && ListsInfo(m, NewOrder(m))
    ensures NewSection(env, Part(m, n, {}, 0), Infos(m, NewOrder(m)[n..]) + tail, n, true)
            == Some(Progress(Part(m, |NewOrder(m)|, {}, 0), tail))
    decreases |NewOrder(m)| - n
  {
    hide Between, Part, Infos, NewOrder, Order;
    OrdersListInfo(m);
    OrderSizes(env, m);
    PartNNew(m, n, {}, 0);
    if n < |NewOrder(m)| {
      NewOrderAt(m, n);
      PartNew(env, m, n, 0);
      PartRandom(m, n, {}, 0);
      InfosHead(m, NewOrder(m), n, tail);
      NewSaved(env, m, n + 1, tail);
    } else {
      InfosDone(m, NewOrder(m), tail);
    }
  }

  lemma {:induction false} TriedSaved(env: Env, m: Man, n: nat, tail: seq<Token>)
    requires Inv(env, m) && n <= |TriedOrder(m)| && ListsInfo(m, TriedOrder(m))
    ensures var k := |NewOrder(m)| + n;
            TriedSection(env, Part(m, k, {}, k), Infos(m, TriedOrder(m)[n..]) + tail, |TriedOrder(m)| - n)
            == Some(Progress(Part(m, |Order(m)|, {}, |Order(m)|), tail))
    decreases |TriedOrder(m)| - n
  {
    hide Between, Part, Infos, NewOrder, TriedOrder, Order;
    OrdersListInfo(m);
    var k := |NewOrder(m)| + n;
    if n < |TriedOrder(m)| {
      TriedOrderAt(m, n);
      PartTried(env, m, k);
      PartNNew(m, k, {}, k);
      PartRandom(m, k, {}, k);
      InfosHead(m, TriedOrder(m), n, tail);
      TriedSaved(env, m, n + 1, tail);
    } else {
      InfosDone(m, TriedOrder(m), tail);
    }
  }

  lemma {:induction false} BucketSaved(env: Env, m: Man, bucket: nat, n: nat, tail: seq<Token>)
    requires EnvOk(env) && Inv(env, m) && bucket < NEW_BUCKET_COUNT && n <= |Occupied(m, bucket, 0)|
    requires PositionsListed(m, bucket, Occupied(m, bucket, 0)[n..])
    ensures var total, ps := |Order(m)|, Occupied(m, bucket, 0);
            BucketSection(env, Part(m, total, ListedUpTo(m, bucket, n), total), Indexes(m, bucket, ps[n..]) + tail, bucket, |ps| - n, true)
            == Some(Progress(Part(m, total, ListedBelow(m, bucket + 1), total), tail))
    decreases |Occupied(m, bucket, 0)| - n
  {
    hide Between, Part, Indexes, Occupied, ListedUpTo, ListedBelow, Order;
    var total, ps := |Order(m)|, Occupied(m, bucket, 0);
    if n < |ps| {
      var s := Slot(bucket, ps[n]);
      NextIndex(env, m, bucket, n);
      PartListed(env, m, ListedUpTo(m, bucket, n), s);
      PartNNew(m, total, ListedUpTo(m, bucket, n), total);
      PartRandom(m, total, ListedUpTo(m, bucket, n), total);
      IndexesHead(m, bucket, ps, n, tail);
      OrderSizes(env, m);
      BucketSaved(env, m, bucket, n + 1, tail);
    } else {
      BucketDone(env, m, bucket);
      IndexesDone(m, bucket, ps, tail);
    }
  }

  lemma {:induction false} BucketsSaved(env: Env, m: Man, bucket: nat)
    requires EnvOk(env) && Inv(env, m) && bucket <= NEW_BUCKET_COUNT
    ensures var total := |Order(m)|;
            BucketsSection(env, Part(m, total, ListedBelow(m, bucket), total), Buckets(m, bucket), bucket, NEW_BUCKET_COUNT, true)
            == Some(Part(m, total, ListedBelow(m, NEW_BUCKET_COUNT), total))
    decreases NEW_BUCKET_COUNT - bucket
  {
    hide Between, Part, Indexes, Occupied, ListedUpTo, ListedBelow, Order, Buckets, BucketSection;
    if bucket < NEW_BUCKET_COUNT {
      var ps := Occupied(m, bucket, 0);
      BucketsNext(m, bucket);
      BucketDone(env, m, bucket);
      assert ps[0..] == ps;
      OccupiedListed(m, bucket);
      BucketSaved(env, m, bucket, 0, Buckets(m, bucket + 1));
      assert Buckets(m, bucket)[1..] == Indexes(m, bucket, ps) + Buckets(m, bucket + 1);
      BucketsSaved(env, m, bucket + 1);
    } else {
      BucketsEnd(m);
    }
  }

  // Loading reads a saved manager back, with its ids renumbered.
  lemma {:induction false} LoadSaved(env: Env, m: Man)
    requires EnvOk(env) && Inv(env, m)
    ensures Load(env, Save(m)) == Some(Renumber(m))
  {
    hide Between, Part, Infos, NewOrder, TriedOrder, Order, Buckets, Renumber, NewSection, TriedSection, BucketsSection, Save;
    HeaderRead(env, m);
    HeaderUsable(m);
    PartStart(m);
    OrdersListInfo(m);
    OrderSizes(env, m);
    var base := |NewOrder(m)|;
    assert NewOrder(m)[0..] == NewOrder(m) && TriedOrder(m)[0..] == TriedOrder(m);
    NewSaved(env, m, 0, Infos(m, TriedOrder(m)) + Buckets(m, 0));
    PartNNew(m, base, {}, 0);
    PartCount(m, base, {}, 0, base);
    TriedSaved(env, m, 0, Buckets(m, 0));
    BelowEnds(env, m);
    BucketsSaved(env, m, 0);
    PartWhole(env, m);
  }

  lemma {:induction false} NoneUnreferenced(env: Env, m: Man)
    requires Inv(env, m)
    ensures Unreferenced(Renumber(m)) == {}
  {
    hide Between, Renumber, Order;
    PartWhole(env, m);
    RenumberIds(m);
  }

  lemma {:induction false} HeaderUsable(m: Man)
    requires |Save(m)| >= 6 && Save(m)[..6] == Header(m)
    requires m.nNew <= NEW_BUCKET_COUNT * BUCKET_SIZE && m.nTried <= TRIED_BUCKET_COUNT * BUCKET_SIZE
    requires ToggleMark(ToggleMark(NEW_BUCKET_COUNT)) == NEW_BUCKET_COUNT
    ensures HeaderOk(Save(m)) && UBuckets(Save(m)) == NEW_BUCKET_COUNT && Usable(Save(m))
    ensures Start(Save(m)) == Man(m.key, 0, map[], map[], [], m.nTried, map[], m.nNew, map[], 1)
  {
    hide Save, ToggleMark;
    var s := Save(m);
    assert forall i :: 0 <= i < 6 ==> s[i] == s[..6][i];
  }

  lemma {:induction false} HeaderRead(env: Env, m: Man)
    requires EnvOk(env) && Inv(env, m)
    ensures |Save(m)| >= 6 && Save(m)[..6] == Header(m)
    ensures Save(m)[6..] == Infos(m, NewOrder(m)) + (Infos(m, TriedOrder(m)) + Buckets(m, 0))
    ensures ToggleMark(ToggleMark(NEW_BUCKET_COUNT)) == NEW_BUCKET_COUNT
    ensures m.nNew <= NEW_BUCKET_COUNT * BUCKET_SIZE && m.nTried <= TRIED_BUCKET_COUNT * BUCKET_SIZE
  {
    hide Between, Infos, Buckets, NewOrder, TriedOrder;
    CountersFit(env, m);
  }

  lemma {:induction false} PartStart(m: Man)
    ensures Part(m, 0, {}, 0) == Man(m.key, 0, map[], map[], [], m.nTried, map[], m.nNew, map[], 1)
  {
  }

  lemma {:induction false} PartCount(m: Man, n: nat, listed: set<Slot>, c: int, c': int)
    requires n <= |Order(m)|
    ensures Part(m, n, listed, c).(idCount := c') == Part(m, n, listed, c')
  {
  }

  lemma {:induction false} RenumberIds(m: Man)
    ensures forall k :: k in Renumber(m).info ==> 0 <= k < |Order(m)|
  {
  }

  // ---- the layout of the file ----

  lemma {:induction false} InfosAt(m: Man, ids: seq<int>)
    requires ListsInfo(m, ids)
    ensures |Infos(m, ids)| == |ids| && forall k :: 0 <= k < |ids| ==> Infos(m, ids)[k] == Info(ToStored(m.info[ids[k]]))
  {
    if ids != [] {
      InfosAt(m, ids[1..]);
      forall k | 0 < k < |ids|
        ensures Infos(m, ids)[k] == Info(ToStored(m.info[ids[k]]))
      {
        assert Infos(m, ids)[k] == Infos(m, ids[1..])[k - 1];
      }
    }
  }

  lemma {:induction false} IndexesSize(m: Man, bucket: nat, ps: seq<nat>)
    requires forall k :: 0 <= k < |ps| ==> Slot(bucket, ps[k]) in m.newTab
    ensures |Indexes(m, bucket, ps)| == |ps|
  {
    hide IndexOf;
    if ps != [] {
      IndexesSize(m, bucket, ps[1..]);
    }
  }

  lemma {:induction false} UpToSize(env: Env, m: Man, bucket: nat, n: nat)
    requires EnvOk(env) && Inv(env, m) && n <= |Occupied(m, bucket, 0)|
    ensures |ListedUpTo(m, bucket, n)| == |ListedBelow(m, bucket)| + n
  {
    hide Between, Occupied, ListedUpTo, ListedBelow;
    if n == 0 {
      BucketDone(env, m, bucket);
    } else {
      UpToSize(env, m, bucket, n - 1);
      NextIndex(env, m, bucket, n - 1);
    }
  }

  // One number for each bucket, and one for each slot that is taken.
  lemma {:induction false} BucketsSize(env: Env, m: Man, bucket: nat)
    requires EnvOk(env) && Inv(env, m) && bucket <= NEW_BUCKET_COUNT
    ensures |Buckets(m, bucket)| + |ListedBelow(m, bucket)| == NEW_BUCKET_COUNT - bucket + |m.newTab|
    decreases NEW_BUCKET_COUNT - bucket
  {
    hide Between, Occupied, ListedUpTo, ListedBelow, Indexes, Buckets;
    if bucket == NEW_BUCKET_COUNT {
      BucketsEnd(m);
      BelowEnds(env, m);
      assert |m.newTab.Keys| == |m.newTab|;
    } else {
      var ps := Occupied(m, bucket, 0);
      BucketsNext(m, bucket);
      OccupiedListed(m, bucket);
      IndexesSize(m, bucket, ps);
      BucketDone(env, m, bucket);
      UpToSize(env, m, bucket, |ps|);
      BucketsSize(env, m, bucket + 1);
    }
  }

  // Version 1, key size 32, the key, the two counters and 1024 with bit 30 toggled; the new entries
  // and the tried entries, each in the order of their ids; and the buckets.
  lemma {:induction false} SavedLayout(env: Env, m: Man)
    requires EnvOk(env) && Inv(env, m)
    ensures var s := Save(m);
            && |s| == 6 + |m.info| + 1024 + |m.newTab| && |m.info| == m.nNew + m.nTried
            && s[..6] == [Byte(1), Byte(32), Key(m.key), Int(m.nNew), Int(m.nTried), Int(1_073_742_848)]
    ensures |NewOrder(m)| == m.nNew && |TriedOrder(m)| == m.nTried
    ensures forall k :: 0 <= k < m.nNew ==>
              NewOrder(m)[k] in m.info && Save(m)[6 + k] == Info(ToStored(m.info[NewOrder(m)[k]]))
    ensures forall k :: 0 <= k < m.nTried ==>
              TriedOrder(m)[k] in m.info && Save(m)[6 + m.nNew + k] == Info(ToStored(m.info[TriedOrder(m)[k]]))
  {
    hide Between, Buckets, Infos, NewOrder, TriedOrder, Order, ListedBelow;
    OrderSizes(env, m);
    OrdersListInfo(m);
    InfosAt(m, NewOrder(m));
    InfosAt(m, TriedOrder(m));
    BucketsSize(env, m, 0);
    BelowEnds(env, m);
    assert Header(m) == [Byte(1), Byte(32), Key(m.key), Int(m.nNew), Int(m.nTried), Int(1_073_742_848)] by {
      assert ToggleMark(NEW_BUCKET_COUNT) == 1_073_742_848;
    }
    hide Header;
    FourParts(Header(m), Infos(m, NewOrder(m)), Infos(m, TriedOrder(m)), Buckets(m, 0));
  }

  lemma {:induction false} FourParts(a: seq<Token>, b: seq<Token>, c: seq<Token>, d: seq<Token>)
    ensures var s := a + (b + (c + d));
            && |s| == |a| + |b| + |c| + |d| && s[..|a|] == a
            && (forall k :: 0 <= k < |b| ==> s[|a| + k] == b[k])
            && (forall k :: 0 <= k < |c| ==> s[|a| + |b| + k] == c[k])
  {
  }

  // ---- renumbering loses nothing ----

  // The same addresses sit in the same slots with the same counts; only ids, the
  // order of vRandom and what is kept in memory only may differ.
  ghost predicate SameManager(m: Man, r: Man) {
    && r.key == m.key && r.nNew == m.nNew && r.nTried == m.nTried
    && r.addr.Keys == m.addr.Keys && r.newTab.Keys == m.newTab.Keys && r.triedTab.Keys == m.triedTab.Keys
    && |r.info| == |m.info|
    && (forall a :: a in m.addr ==> SameKept(m, m.addr[a], r, r.addr[a]))
    && (forall s :: s in m.newTab ==> SameKept(m, m.newTab[s], r, r.newTab[s]))
    && (forall s :: s in m.triedTab ==> SameKept(m, m.triedTab[s], r, r.triedTab[s]))
  }

  ghost predicate SameKept(m: Man, id: int, r: Man, k: int) {
    && id in m.info && k in r.info
    && ToStored(r.info[k]) == ToStored(m.info[id])
    && r.info[k].refCount == m.info[id].refCount && r.info[k].inTried == m.info[id].inTried
  }

  lemma {:induction false} RenumberInfo(env: Env, m: Man)
    requires Inv(env, m)
    ensures var r := Renumber(m);
            && r.info.Keys == Range(0, |Order(m)|) && |r.info| == |Order(m)| == |m.info|
            && (forall k :: 0 <= k < |Order(m)| ==>
                  Order(m)[k] in m.info && r.info[k] == Loaded(m.info[Order(m)[k]], k)
                  && IndexOf(m, Order(m)[k]) == k && (k < m.nNew <==> !r.info[k].inTried))
  {
    hide Between, IndexOf, Order, Range;
    OrderSizes(env, m);
    var r := Renumber(m);
    forall k | 0 <= k < |Order(m)|
      ensures Order(m)[k] in m.info && IndexOf(m, Order(m)[k]) == k && (k < m.nNew <==> !m.info[Order(m)[k]].inTried)
    {
      IndexAt(m, k);
    }
    RenumberKeys(m);
    assert |r.info.Keys| == |Order(m)|;
  }

  lemma {:induction false} RenumberKeys(m: Man)
    ensures Renumber(m).info.Keys == Range(0, |Order(m)|)
  {
    hide IndexOf, Order;
    forall k | 0 <= k < |Order(m)|
      ensures Order(m)[k] in m.info
    {
      IndexAt(m, k);
    }
  }

  lemma {:induction false} RenumberTables(m: Man)
    ensures var r := Renumber(m);
            && r.key == m.key && r.nNew == m.nNew && r.nTried == m.nTried && r.idCount == |Order(m)|
            && |r.random| == |Order(m)| && (forall k :: 0 <= k < |r.random| ==> r.random[k] == k)
            && r.addr.Keys == m.addr.Keys && r.newTab.Keys == m.newTab.Keys && r.triedTab.Keys == m.triedTab.Keys
            && (forall a :: a in m.addr ==> r.addr[a] == IndexOf(m, m.addr[a]))
            && (forall s :: s in m.newTab ==> r.newTab[s] == IndexOf(m, m.newTab[s]))
            && (forall s :: s in m.triedTab ==> r.triedTab[s] == IndexOf(m, m.triedTab[s]))
  {
    hide IndexOf, Order;
  }

  lemma {:induction false} RenumberSame(env: Env, m: Man)
    requires Inv(env, m)
    ensures SameManager(m, Renumber(m))
  {
    hide CountsOk, IdsOk, RandomOk, RefsOk, IndexOf, Order, Renumber, SameKept;
    RenumberInfo(env, m);
    RenumberTables(m);
    var r := Renumber(m);
    forall id | id in m.info
      ensures SameKept(m, id, r, IndexOf(m, id))
    {
      RenumberKept(env, m, id);
    }
  }

  lemma {:induction false} RenumberKept(env: Env, m: Man, id: int)
    requires Inv(env, m) && id in m.info
    ensures SameKept(m, id, Renumber(m), IndexOf(m, id))
  {
    hide Between, IndexOf, Order, Renumber;
    RenumberInfo(env, m);
    OrderAt(env, m, id);
  }

  // The loaded manager is consistent again.
  lemma {:induction false} RenumberKeeps(env: Env, m: Man)
    requires Inv(env, m)
    ensures Inv(env, Renumber(m))
  {
    hide AddrOk, TriedOk, NewOk, RefsOk, CountsOk, IndexOf, Order, Renumber, RandomOk;
    RenumberIndexesOk(env, m);
    RenumberAddrOk(env, m);
    RenumberTriedOk(env, m);
    RenumberNewOk(env, m);
    RenumberCountsOk(env, m);
  }

  lemma {:induction false} RenumberIndexesOk(env: Env, m: Man)
    requires Inv(env, m)
    ensures IdsOk(Renumber(m)) && RandomOk(Renumber(m))
  {
    hide Between, IndexOf, Order, RandomOk, Renumber;
    RenumberInfo(env, m);
    RenumberTables(m);
    RandomIdentity(Renumber(m));
  }

  lemma {:induction false} RenumberAddrOk(env: Env, m: Man)
    requires Inv(env, m)
    ensures AddrOk(Renumber(m))
  {
    hide TriedOk, NewOk, RefsOk, CountsOk, IdsOk, IndexOf, Order, RandomOk, Renumber;
    RenumberInfo(env, m);
    RenumberTables(m);
    var r := Renumber(m);
    forall a | a in r.addr
      ensures r.addr[a] in r.info && r.info[r.addr[a]].Net() == a
    {
      OrderAt(env, m, m.addr[a]);
    }
    forall k | k in r.info
      ensures r.info[k].Net() in r.addr && r.addr[r.info[k].Net()] == k
    {
      assert m.addr[m.info[Order(m)[k]].Net()] == Order(m)[k];
    }
  }

  lemma {:induction false} RandomIdentity(r: Man)
    requires |r.random| == |r.info| && (forall k :: 0 <= k < |r.random| ==> r.random[k] == k)
    requires forall k :: k in r.info <==> 0 <= k < |r.random|
    requires forall k :: k in r.info ==> r.info[k].randomPos == k
    ensures RandomOk(r)
  {
  }

  lemma {:induction false} RenumberTriedOk(env: Env, m: Man)
    requires Inv(env, m)
    ensures TriedOk(env, Renumber(m))
  {
    hide Between, IndexOf, Order, Renumber, TriedSlot;
    var r := Renumber(m);
    forall s | s in r.triedTab
      ensures r.triedTab[s] in r.info && r.info[r.triedTab[s]].inTried
      ensures s == TriedSlot(env, r.key, r.info[r.triedTab[s]].address.service)
    {
      RenumberTriedKeys(m);
      RenumberTriedEntry(env, m, s);
    }
    forall k | k in r.info && r.info[k].inTried
      ensures TriedSlot(env, r.key, r.info[k].address.service) in r.triedTab
      ensures r.triedTab[TriedSlot(env, r.key, r.info[k].address.service)] == k
    {
      RenumberTriedPlace(env, m, k);
    }
  }

  lemma {:induction false} RenumberTriedKeys(m: Man)
    ensures Renumber(m).triedTab.Keys == m.triedTab.Keys
  {
    hide IndexOf, Order;
  }

  lemma {:induction false} RenumberTriedPlace(env: Env, m: Man, k: int)
    requires Inv(env, m) && k in Renumber(m).info && Renumber(m).info[k].inTried
    ensures var r := Renumber(m); var slot := TriedSlot(env, r.key, r.info[k].address.service);
            slot in r.triedTab && r.triedTab[slot] == k
  {
    hide Between, IndexOf, Order, Renumber, TriedSlot;
    RenumberInfo(env, m);
    RenumberTables(m);
    TriedPlace(env, m, Order(m)[k]);
  }

  lemma {:induction false} RenumberTriedEntry(env: Env, m: Man, s: Slot)
    requires Inv(env, m) && s in m.triedTab
    ensures var r := Renumber(m);
            && s in r.triedTab && r.triedTab[s] in r.info && r.info[r.triedTab[s]].inTried
            && s == TriedSlot(env, r.key, r.info[r.triedTab[s]].address.service)
  {
    hide Between, IndexOf, Order, Renumber, TriedSlot;
    RenumberTables(m);
    TriedEntry(env, m, s);
    RenumberKept(env, m, m.triedTab[s]);
  }

  lemma {:induction false} TriedEntry(env: Env, m: Man, s: Slot)
    requires Inv(env, m) && s in m.triedTab
    ensures m.triedTab[s] in m.info && m.info[m.triedTab[s]].inTried
    ensures s == TriedSlot(env, m.key, m.info[m.triedTab[s]].address.service)
  {
    hide AddrOk, NewOk, RefsOk, CountsOk, IdsOk, RandomOk, TriedSlot;
  }

  lemma {:induction false} TriedPlace(env: Env, m: Man, id: int)
    requires Inv(env, m) && id in m.info && m.info[id].inTried
    ensures TriedSlot(env, m.key, m.info[id].address.service) in m.triedTab
    ensures m.triedTab[TriedSlot(env, m.key, m.info[id].address.service)] == id
  {
    hide AddrOk, NewOk, RefsOk, CountsOk, IdsOk, RandomOk, TriedSlot;
  }

  lemma {:induction false} RenumberNewOk(env: Env, m: Man)
    requires Inv(env, m)
    ensures NewOk(env, Renumber(m))
  {
    hide Between, IndexOf, Order, Renumber, Slots, NewPosition;
    var r := Renumber(m);
    forall s | s in r.newTab
      ensures r.newTab[s] in r.info && s.bucket < NEW_BUCKET_COUNT
      ensures s.pos == NewPosition(env, r.key, s.bucket, r.info[r.newTab[s]].address.service)
    {
      RenumberNewEntry(env, m, s);
    }
    forall k | k in r.info
      ensures r.info[k].refCount == |Slots(r.newTab, k)|
    {
      RenumberNewCount(env, m, k);
    }
  }

  lemma {:induction false} RenumberNewEntry(env: Env, m: Man, s: Slot)
    requires Inv(env, m) && s in Renumber(m).newTab
    ensures var r := Renumber(m);
            && r.newTab[s] in r.info && s.bucket < NEW_BUCKET_COUNT
            && s.pos == NewPosition(env, r.key, s.bucket, r.info[r.newTab[s]].address.service)
  {
    hide Between, IndexOf, Order, Renumber, NewPosition;
    RenumberTables(m);
    NewEntry(env, m, s);
    RenumberKept(env, m, m.newTab[s]);
  }

  lemma {:induction false} RenumberNewCount(env: Env, m: Man, k: int)
    requires Inv(env, m) && k in Renumber(m).info
    ensures Renumber(m).info[k].refCount == |Slots(Renumber(m).newTab, k)|
  {
    hide Between, IndexOf, Order, Renumber, Slots;
    RenumberInfo(env, m);
    RenumberSlots(env, m, k);
    NewCount(env, m, Order(m)[k]);
  }

  lemma {:induction false} NewEntry(env: Env, m: Man, s: Slot)
    requires Inv(env, m) && s in m.newTab
    ensures m.newTab[s] in m.info && s.bucket < NEW_BUCKET_COUNT
    ensures s.pos == NewPosition(env, m.key, s.bucket, m.info[m.newTab[s]].address.service)
  {
    hide AddrOk, TriedOk, RefsOk, CountsOk, IdsOk, RandomOk, NewPosition;
  }

  lemma {:induction false} NewCount(env: Env, m: Man, id: int)
    requires Inv(env, m) && id in m.info
    ensures m.info[id].refCount == |Slots(m.newTab, id)|
  {
    hide AddrOk, TriedOk, RefsOk, CountsOk, IdsOk, RandomOk, NewPosition;
  }

  lemma {:induction false} RenumberSlots(env: Env, m: Man, k: int)
    requires Inv(env, m) && 0 <= k < |Order(m)|
    ensures Slots(Renumber(m).newTab, k) == Slots(m.newTab, Order(m)[k])
  {
    hide AddrOk, TriedOk, RefsOk, CountsOk, IdsOk, IndexOf, Order, RandomOk, Renumber;
    RenumberTables(m);
    IndexAt(m, k);
    var r, id := Renumber(m), Order(m)[k];
    forall s
      ensures s in Slots(r.newTab, k) <==> s in Slots(m.newTab, id)
    {
      if s in m.newTab {
        OrderAt(env, m, m.newTab[s]);
      }
    }
  }

  lemma {:induction false} RenumberCountsOk(env: Env, m: Man)
    requires Inv(env, m)
    ensures RefsOk(Renumber(m), {}) && CountsOk(Renumber(m), 0)
  {
    hide AddrOk, TriedOk, NewOk, IdsOk, CountsOk, IndexOf, Order, RandomOk, Renumber;
    RenumberInfo(env, m);
    RenumberTables(m);
    OrderSizes(env, m);
    OrdersListInfo(m);
    CountsFromRanges(Renumber(m), m.nNew, |Order(m)|);
  }

  lemma {:induction false} RenumberTimes(env: Env, m: Man)
    requires Inv(env, m) && TimesOk(m)
    ensures TimesOk(Renumber(m)) && Renumber(m).key == m.key
  {
    hide Between, Order, IndexOf;
    var r, order := Renumber(m), Order(m);
    forall k | k in r.info
      ensures r.info[k].lastTry >= 0 && r.info[k].lastSuccess >= 0 && (r.info[k].inTried ==> r.info[k].lastSuccess != 0)
    {
      var id := order[k];
      assert id in m.info && r.info[k] == Loaded(m.info[id], k);
      assert m.info[id].lastTry >= 0;
    }
  }

  // Save, then load into a fresh manager: the same manager; and Check_ passes if the times
  // were sane, unless the key is null.
  method SaveAndLoad(man: CAddrMan, key: nat) returns (loaded: CAddrMan)
    requires man.Valid() && Inv(man.env, man.State())
    ensures fresh(loaded) && loaded.Valid() && loaded.env == man.env
    ensures SameManager(man.State(), loaded.State()) && Inv(loaded.env, loaded.State())
    ensures TimesOk(man.State()) ==> (CheckPasses(loaded.env, loaded.State()) <==> man.State().key != 0)
  {
    hide Between, SameManager, Save, Renumber, TimesOk, CheckPasses;
    var stream := Serialize(man);
    ghost var m := man.State();
    loaded := new CAddrMan(man.env, key);
    var ok := Unserialize(loaded, stream, key);
    assert ok;
    RenumberSame(man.env, m);
    RenumberKeeps(man.env, m);
    if TimesOk(m) {
      RenumberTimes(man.env, m);
      InvPassesCheck(loaded.env, loaded.State());
    }
  }
}
