// The stochastic address manager (src/addrman.cpp, src/addrman.h): its state as a
// value, one function per operation, and the consistency invariant they keep.

module AddrManState {
  import opened Basics

  const TRIED_BUCKET_COUNT := 256
  const NEW_BUCKET_COUNT := 1024
  const BUCKET_SIZE := 64
  const TRIED_BUCKETS_PER_GROUP := 8
  const NEW_BUCKETS_PER_SOURCE_GROUP := 64
  const NEW_BUCKETS_PER_ADDRESS := 8
  const HORIZON_DAYS := 30
  const RETRIES := 3
  const MAX_FAILURES := 10
  const MIN_FAIL_DAYS := 7
  const SECONDS_PER_DAY := 24 * 60 * 60

  datatype NetAddr = NetAddr(ip: nat)
  datatype Service = Service(addr: NetAddr, port: nat)
  datatype Address = Address(service: Service, time: int, services: set<nat>)

  // What the tables depend on and the manager does not decide: the bucket and the
  // position an entry hashes to, given the secret key, and whether an address is
  // routable. AddrManHash builds the hash part the way CAddrInfo does.
  datatype Env = Env(
    triedBucket: (nat, Service) -> nat,
    newBucket: (nat, Service, NetAddr) -> nat,
    position: (nat, bool, nat, Service) -> nat,
    routable: NetAddr -> bool)

  datatype AddrInfo = AddrInfo(
    address: Address, source: NetAddr,
    lastSuccess: int, lastTry: int, lastCountAttempt: int, attempts: int,
    refCount: int, inTried: bool, randomPos: int)
  {
    function Net(): NetAddr {
      address.service.addr
    }

    predicate IsTerrible(now: int) {
      if lastTry != 0 && lastTry >= now - 60 then false
      else
        || address.time > now + 10 * 60
        || address.time == 0 || now - address.time > HORIZON_DAYS * SECONDS_PER_DAY
        || (lastSuccess == 0 && attempts >= RETRIES)
        || (now - lastSuccess > MIN_FAIL_DAYS * SECONDS_PER_DAY && attempts >= MAX_FAILURES)
    }
  }

  // A position in a table.
  datatype Slot = Slot(bucket: nat, pos: nat)

  // The occupied slots of a table.
  type Table = map<Slot, int>

  function NewPosition(env: Env, key: nat, bucket: nat, s: Service): nat {
    env.position(key, true, bucket, s)
  }

  function TriedSlot(env: Env, key: nat, s: Service): Slot {
    Slot(env.triedBucket(key, s), env.position(key, false, env.triedBucket(key, s), s))
  }

  function NewSlot(env: Env, key: nat, s: Service, source: NetAddr): Slot {
    Slot(env.newBucket(key, s, source), NewPosition(env, key, env.newBucket(key, s, source), s))
  }

  datatype Man = Man(
    key: nat, idCount: int,
    info: map<int, AddrInfo>, addr: map<NetAddr, int>, random: seq<int>,
    nTried: int, triedTab: Table, nNew: int, newTab: Table, lastGood: int)

  // ---- the invariant ----

  function Slots(table: Table, id: int): set<Slot> {
    set s | s in table && table[s] == id
  }

  ghost function TriedIds(m: Man): set<int> {
    set n | n in m.info && m.info[n].inTried
  }

  ghost function NewIds(m: Man): set<int> {
    set n | n in m.info && !m.info[n].inTried
  }

  ghost predicate IdsOk(m: Man) {
    m.idCount >= 0 && forall n :: n in m.info ==> 0 <= n < m.idCount
  }

  // mapAddr is inverse to mapInfo.
  ghost predicate AddrOk(m: Man) {
    && (forall n :: n in m.info ==> m.info[n].Net() in m.addr && m.addr[m.info[n].Net()] == n)
    && (forall a :: a in m.addr ==> m.addr[a] in m.info && m.info[m.addr[a]].Net() == a)
  }

  // vRandom is inverse to mapInfo through nRandomPos.
  ghost predicate RandomOk(m: Man) {
    && |m.random| == |m.info|
    && (forall n :: n in m.info ==> 0 <= m.info[n].randomPos < |m.random| && m.random[m.info[n].randomPos] == n)
    && (forall i :: 0 <= i < |m.random| ==> m.random[i] in m.info && m.info[m.random[i]].randomPos == i)
  }

  // The tried table holds the tried ids, each at the one slot it hashes to.
  ghost predicate TriedOk(env: Env, m: Man) {
    && (forall s :: s in m.triedTab ==>
          && m.triedTab[s] in m.info && m.info[m.triedTab[s]].inTried
          && s == TriedSlot(env, m.key, m.info[m.triedTab[s]].address.service))
    && (forall n :: n in m.info && m.info[n].inTried ==>
          && TriedSlot(env, m.key, m.info[n].address.service) in m.triedTab
          && m.triedTab[TriedSlot(env, m.key, m.info[n].address.service)] == n)
  }

  // The new table holds ids outside tried, in each bucket only at the position they
  // hash to; a reference count is the number of slots.
  ghost predicate NewOk(env: Env, m: Man) {
    && (forall s :: s in m.newTab ==>
          && m.newTab[s] in m.info && s.bucket < NEW_BUCKET_COUNT
          && s.pos == NewPosition(env, m.key, s.bucket, m.info[m.newTab[s]].address.service))
    && (forall n :: n in m.info ==> m.info[n].refCount == |Slots(m.newTab, n)|)
  }

  // Ids in `loose` are in neither table; all others are in exactly one.
  ghost predicate RefsOk(m: Man, loose: set<int>) {
    && loose <= m.info.Keys
    && (forall n :: n in m.info ==>
          if m.info[n].inTried then n !in loose && m.info[n].refCount == 0
          else (n in loose <==> m.info[n].refCount == 0) && m.info[n].refCount <= NEW_BUCKETS_PER_ADDRESS)
  }

  // The counters, with `uncounted` loose ids that nNew leaves out.
  ghost predicate CountsOk(m: Man, uncounted: int) {
    && m.nTried == |TriedIds(m)|
    && m.nNew + uncounted == |NewIds(m)|
  }

  ghost predicate TimesOk(m: Man) {
    forall n :: n in m.info ==>
      m.info[n].lastTry >= 0 && m.info[n].lastSuccess >= 0 && (m.info[n].inTried ==> m.info[n].lastSuccess != 0)
  }

  // The invariant inside an operation: `loose` ids are being moved.
  ghost predicate Between(env: Env, m: Man, loose: set<int>, uncounted: int) {
    && IdsOk(m) && AddrOk(m) && RandomOk(m)
    && TriedOk(env, m) && NewOk(env, m) && RefsOk(m, loose) && CountsOk(m, uncounted)
  }

  // The invariant between operations.
  ghost predicate Inv(env: Env, m: Man) {
    Between(env, m, {}, 0)
  }

  // ---- the operations ----

  function Find(m: Man, a: NetAddr): Option<int> {
    if a in m.addr && m.addr[a] in m.info then Some(m.addr[a]) else None
  }

  function SetInfo(m: Man, id: int, i: AddrInfo): Man {
    m.(info := m.info[id := i])
  }

  function Create(m: Man, address: Address, source: NetAddr): Man {
    m.(idCount := m.idCount + 1,
       info := m.info[m.idCount := AddrInfo(address, source, 0, 0, 0, 0, 0, false, |m.random|)],
       addr := m.addr[address.service.addr := m.idCount],
       random := m.random + [m.idCount])
  }

  function SwapRandom(m: Man, i: int, j: int): Man
    requires i == j || (0 <= i < |m.random| && 0 <= j < |m.random|)
    requires i == j || (m.random[i] in m.info && m.random[j] in m.info)
  {
    if i == j then m
    else
      var id1, id2 := m.random[i], m.random[j];
      var info1 := m.info[id1 := m.info[id1].(randomPos := j)];
      m.(info := info1[id2 := info1[id2].(randomPos := i)],
         random := m.random[i := id2][j := id1])
  }

  // Take out the id that is last in vRandom.
  function DropLast(m: Man, id: int): Man
    requires id in m.info && |m.random| > 0
  {
    m.(random := m.random[..|m.random| - 1], addr := m.addr - {m.info[id].Net()},
       info := m.info - {id}, nNew := m.nNew - 1)
  }

  function Delete(m: Man, id: int): Man
    requires id in m.info && RandomOk(m)
  {
    DropLast(SwapRandom(m, m.info[id].randomPos, |m.random| - 1), id)
  }

  // Take the id at a new-table slot out of it.
  function Unlink(m: Man, s: Slot): Man
    requires s in m.newTab && m.newTab[s] in m.info
  {
    var id := m.newTab[s];
    m.(info := m.info[id := m.info[id].(refCount := m.info[id].refCount - 1)],
       newTab := m.newTab - {s})
  }

  function ClearNew(m: Man, s: Slot): Man
    requires RandomOk(m) && (s in m.newTab ==> m.newTab[s] in m.info)
  {
    if s !in m.newTab then m
    else
      var id, unlinked := m.newTab[s], Unlink(m, s);
      if unlinked.info[id].refCount == 0 then Delete(unlinked, id) else unlinked
  }

  // Put an id into a free new-table slot.
  function Link(m: Man, s: Slot, id: int): Man
    requires id in m.info
  {
    m.(info := m.info[id := m.info[id].(refCount := m.info[id].refCount + 1)],
       newTab := m.newTab[s := id])
  }

  function SetRefCount(m: Man, id: int, count: int): Man
    requires id in m.info
  {
    SetInfo(m, id, m.info[id].(refCount := count))
  }

  // Take an id out of all its new-table slots.
  function Detach(m: Man, id: int): Man
    requires id in m.info
  {
    SetRefCount(m, id, m.info[id].refCount - |Slots(m.newTab, id)|)
    .(newTab := map s | s in m.newTab && m.newTab[s] != id :: m.newTab[s])
  }

  // Take the id out of a tried-table slot, leaving it in no table.
  function Retire(m: Man, s: Slot): Man
    requires s in m.triedTab && m.triedTab[s] in m.info
  {
    var id := m.triedTab[s];
    SetInfo(m, id, m.info[id].(inTried := false)).(triedTab := m.triedTab - {s}, nTried := m.nTried - 1)
  }

  // Enter an id into a free tried-table slot.
  function Promote(m: Man, s: Slot, id: int): Man
    requires id in m.info
  {
    SetInfo(m, id, m.info[id].(inTried := true)).(triedTab := m.triedTab[s := id], nTried := m.nTried + 1)
  }

  // ---- what each part of the invariant depends on ----

  ghost predicate SameIds(m: Man, r: Man) {
    r.info.Keys == m.info.Keys && r.idCount == m.idCount && r.key == m.key
  }

  ghost predicate SameAddresses(m: Man, r: Man) {
    SameIds(m, r) && forall n :: n in m.info ==> r.info[n].address.service == m.info[n].address.service
  }

  ghost predicate SameTried(m: Man, r: Man) {
    SameIds(m, r) && forall n :: n in m.info ==> r.info[n].inTried == m.info[n].inTried
  }

  ghost predicate SameRandom(m: Man, r: Man) {
    SameIds(m, r) && r.random == m.random && forall n :: n in m.info ==> r.info[n].randomPos == m.info[n].randomPos
  }

  ghost predicate SameRefs(m: Man, r: Man) {
    SameIds(m, r) && forall n :: n in m.info ==> r.info[n].refCount == m.info[n].refCount
  }

  lemma {:induction false} IdsTransfer(m: Man, r: Man)
    requires IdsOk(m) && SameIds(m, r)
    ensures IdsOk(r)
  {
  }

  lemma {:induction false} AddrTransfer(m: Man, r: Man)
    requires AddrOk(m) && SameAddresses(m, r) && r.addr == m.addr
    ensures AddrOk(r)
  {
  }

  lemma {:induction false} RandomTransfer(m: Man, r: Man)
    requires RandomOk(m) && SameRandom(m, r)
    ensures RandomOk(r)
  {
    assert |r.info.Keys| == |m.info.Keys|;
  }

  lemma {:induction false} TriedTransfer(env: Env, m: Man, r: Man)
    requires TriedOk(env, m) && SameAddresses(m, r) && SameTried(m, r) && r.triedTab == m.triedTab
    ensures TriedOk(env, r)
  {
    forall s | s in r.triedTab
      ensures r.triedTab[s] in r.info && r.info[r.triedTab[s]].inTried
      ensures s == TriedSlot(env, r.key, r.info[r.triedTab[s]].address.service)
    {
      var n := m.triedTab[s];
      assert n in m.info && s == TriedSlot(env, m.key, m.info[n].address.service);
      assert r.info[n].address.service == m.info[n].address.service;
    }
    forall n | n in r.info && r.info[n].inTried
      ensures TriedSlot(env, r.key, r.info[n].address.service) in r.triedTab
      ensures r.triedTab[TriedSlot(env, r.key, r.info[n].address.service)] == n
    {
      assert n in m.info && m.info[n].inTried;
    }
  }

  lemma {:induction false} NewTransfer(env: Env, m: Man, r: Man)
    requires NewOk(env, m) && SameAddresses(m, r) && SameRefs(m, r) && r.newTab == m.newTab
    ensures NewOk(env, r)
  {
    forall s | s in r.newTab
      ensures r.newTab[s] in r.info && s.bucket < NEW_BUCKET_COUNT
      ensures s.pos == NewPosition(env, r.key, s.bucket, r.info[r.newTab[s]].address.service)
    {
      var n := m.newTab[s];
      assert n in m.info && s.pos == NewPosition(env, m.key, s.bucket, m.info[n].address.service);
      assert r.info[n].address.service == m.info[n].address.service;
    }
    forall n | n in r.info
      ensures r.info[n].refCount == |Slots(r.newTab, n)|
    {
      assert m.info[n].refCount == |Slots(m.newTab, n)|;
    }
  }

  lemma {:induction false} RefsTransfer(m: Man, r: Man, loose: set<int>)
    requires RefsOk(m, loose) && SameTried(m, r) && SameRefs(m, r)
    ensures RefsOk(r, loose)
  {
    forall n | n in r.info
      ensures if r.info[n].inTried then n !in loose && r.info[n].refCount == 0
              else (n in loose <==> r.info[n].refCount == 0) && r.info[n].refCount <= NEW_BUCKETS_PER_ADDRESS
    {
      assert n in m.info;
    }
  }

  lemma {:induction false} CountsTransfer(m: Man, r: Man, uncounted: int)
    requires CountsOk(m, uncounted) && SameTried(m, r) && r.nTried == m.nTried && r.nNew == m.nNew
    ensures CountsOk(r, uncounted)
  {
    forall n
      ensures n in TriedIds(r) <==> n in TriedIds(m)
      ensures n in NewIds(r) <==> n in NewIds(m)
    {
    }
    assert TriedIds(r) == TriedIds(m) && NewIds(r) == NewIds(m);
  }

  // Rewriting only statistics keeps everything.
  lemma {:induction false} StatsTransfer(env: Env, m: Man, r: Man, loose: set<int>, uncounted: int)
    requires Between(env, m, loose, uncounted)
    requires SameAddresses(m, r) && SameTried(m, r) && SameRandom(m, r) && SameRefs(m, r)
    requires r.addr == m.addr && r.triedTab == m.triedTab && r.newTab == m.newTab
    requires r.nTried == m.nTried && r.nNew == m.nNew
    ensures Between(env, r, loose, uncounted)
  {
    AddrTransfer(m, r);
    RandomTransfer(m, r);
    TriedTransfer(env, m, r);
    NewTransfer(env, m, r);
    RefsTransfer(m, r, loose);
    CountsTransfer(m, r, uncounted);
  }

  // ---- each step keeps its part ----

  lemma {:induction false} SwapRandomKeeps(env: Env, m: Man, i: int, j: int, loose: set<int>, uncounted: int)
    requires Between(env, m, loose, uncounted)
    requires 0 <= i < |m.random| && 0 <= j < |m.random|
    ensures Between(env, SwapRandom(m, i, j), loose, uncounted)
  {
    var r := SwapRandom(m, i, j);
    SwapRandomOk(m, i, j);
    AddrTransfer(m, r);
    TriedTransfer(env, m, r);
    NewTransfer(env, m, r);
    RefsTransfer(m, r, loose);
    CountsTransfer(m, r, uncounted);
  }

  lemma {:induction false} SwapRandomOk(m: Man, i: int, j: int)
    requires RandomOk(m) && 0 <= i < |m.random| && 0 <= j < |m.random|
    ensures var r := SwapRandom(m, i, j);
            RandomOk(r) && SameAddresses(m, r) && SameTried(m, r) && SameRefs(m, r)
  {
    if i != j {
      SwapInfo(m, i, j);
      hide SwapRandom;
      SwappedOk(m, SwapRandom(m, i, j), i, j);
    }
  }

  // Two entries of vRandom change places.
  ghost predicate Swapped(m: Man, r: Man, i: int, j: int) {
    && 0 <= i < |m.random| && 0 <= j < |m.random| && r.random == m.random[i := m.random[j]][j := m.random[i]]
    && r.info.Keys == m.info.Keys && r.idCount == m.idCount && r.key == m.key
    && (forall n :: n in m.info ==> r.info[n] == m.info[n].(randomPos := SwappedPos(m, n, i, j)))
  }

  function SwappedPos(m: Man, id: int, i: int, j: int): int
    requires id in m.info && 0 <= i < |m.random| && 0 <= j < |m.random|
  {
    if id == m.random[i] then j else if id == m.random[j] then i else m.info[id].randomPos
  }

  lemma {:induction false} SwapInfo(m: Man, i: int, j: int)
    requires RandomOk(m) && 0 <= i < |m.random| && 0 <= j < |m.random| && i != j
    ensures Swapped(m, SwapRandom(m, i, j), i, j)
  {
    var r, id1, id2 := SwapRandom(m, i, j), m.random[i], m.random[j];
    assert m.info[id1].randomPos == i && m.info[id2].randomPos == j;
    hide RandomOk;
    assert r.info.Keys == m.info.Keys;
  }

  lemma {:induction false} SwappedOk(m: Man, r: Man, i: int, j: int)
    requires RandomOk(m) && i != j && Swapped(m, r, i, j)
    ensures RandomOk(r) && SameAddresses(m, r) && SameTried(m, r) && SameRefs(m, r)
  {
    assert |r.info.Keys| == |m.info.Keys|;
    assert m.info[m.random[i]].randomPos == i && m.info[m.random[j]].randomPos == j;
    forall k | 0 <= k < |r.random|
      ensures r.random[k] in r.info && r.info[r.random[k]].randomPos == k
    {
      var n := r.random[k];
      assert n == m.random[if k == i then j else if k == j then i else k];
      assert n in m.info && r.info[n].randomPos == SwappedPos(m, n, i, j);
    }
    forall n | n in r.info
      ensures 0 <= r.info[n].randomPos < |r.random| && r.random[r.info[n].randomPos] == n
    {
      assert m.random[m.info[n].randomPos] == n;
    }
  }

  lemma {:induction false} DeleteKeeps(env: Env, m: Man, id: int, loose: set<int>, uncounted: int)
    requires Between(env, m, loose, uncounted) && id in loose
    ensures Between(env, Delete(m, id), loose - {id}, uncounted)
  {
    hide TriedOk, NewOk, AddrOk, CountsOk, IdsOk, RandomOk;
    assert id in m.info;
    hide RefsOk;
    SwapToLast(m, id);
    SwapRandomKeeps(env, m, m.info[id].randomPos, |m.random| - 1, loose, uncounted);
    hide SwapRandom, DropLast;
    var r := SwapRandom(m, m.info[id].randomPos, |m.random| - 1);
    DropLastIndexes(r, id);
    DropLastTables(env, r, id, loose, uncounted);
  }

  lemma {:induction false} SwapToLast(m: Man, id: int)
    requires RandomOk(m) && id in m.info
    ensures |m.random| > 0 && 0 <= m.info[id].randomPos < |m.random|
    ensures m.random[m.info[id].randomPos] in m.info && m.random[|m.random| - 1] in m.info
    ensures var r := SwapRandom(m, m.info[id].randomPos, |m.random| - 1);
            |r.random| == |m.random| && r.random[|r.random| - 1] == id && id in r.info
  {
    assert m.random[m.info[id].randomPos] == id;
  }

  lemma {:induction false} DropLastIndexes(r: Man, id: int)
    requires IdsOk(r) && AddrOk(r) && RandomOk(r) && id in r.info
    requires |r.random| > 0 && r.random[|r.random| - 1] == id
    ensures IdsOk(DropLast(r, id)) && AddrOk(DropLast(r, id)) && RandomOk(DropLast(r, id))
  {
    var d := DropLast(r, id);
    assert d.info.Keys == r.info.Keys - {id};
    assert r.info[id].randomPos == |r.random| - 1;
    forall i | 0 <= i < |d.random|
      ensures d.random[i] in d.info && d.info[d.random[i]].randomPos == i
    {
      assert r.random[i] in r.info && r.info[r.random[i]].randomPos == i;
    }
    forall n | n in d.info
      ensures 0 <= d.info[n].randomPos < |d.random| && d.random[d.info[n].randomPos] == n
    {
      assert r.random[r.info[n].randomPos] == n;
    }
    forall a | a in d.addr
      ensures d.addr[a] in d.info && d.info[d.addr[a]].Net() == a
    {
      assert r.addr[a] in r.info && r.info[r.addr[a]].Net() == a;
    }
  }

  lemma {:induction false} DropLastTables(env: Env, r: Man, id: int, loose: set<int>, uncounted: int)
    requires TriedOk(env, r) && NewOk(env, r) && RefsOk(r, loose) && CountsOk(r, uncounted)
    requires id in loose && id in r.info && |r.random| > 0
    ensures TriedOk(env, DropLast(r, id)) && NewOk(env, DropLast(r, id))
    ensures RefsOk(DropLast(r, id), loose - {id}) && CountsOk(DropLast(r, id), uncounted)
  {
    var d := DropLast(r, id);
    assert d.info.Keys == r.info.Keys - {id};
    assert TriedIds(d) == TriedIds(r) && NewIds(d) == NewIds(r) - {id} && id in NewIds(r);
    forall s | s in r.newTab
      ensures r.newTab[s] != id
    {
      assert Slots(r.newTab, id) == {};
      assert s !in Slots(r.newTab, id);
    }
    forall n | n in d.info
      ensures d.info[n].refCount == |Slots(d.newTab, n)|
    {
      assert r.info[n].refCount == |Slots(r.newTab, n)|;
    }
  }

  // One id's reference count and the new table change, and nothing else.
  ghost predicate RefChange(m: Man, r: Man, id: int) {
    && id in m.info && id in r.info
    && r == m.(info := m.info[id := m.info[id].(refCount := r.info[id].refCount)], newTab := r.newTab)
  }

  lemma {:induction false} RefChangeSame(m: Man, r: Man, id: int)
    requires RefChange(m, r, id)
    ensures SameAddresses(m, r) && SameTried(m, r) && SameRandom(m, r)
    ensures r.addr == m.addr && r.triedTab == m.triedTab && r.nTried == m.nTried && r.nNew == m.nNew
  {
    assert r.info.Keys == m.info.Keys;
  }

  lemma {:induction false} RefChangeKeeps(env: Env, m: Man, r: Man, id: int, loose: set<int>, loose': set<int>, uncounted: int)
    requires Between(env, m, loose, uncounted) && RefChange(m, r, id) && NewOk(env, r) && RefsOk(r, loose')
    ensures Between(env, r, loose', uncounted)
  {
    hide IdsOk, AddrOk, RandomOk, TriedOk, NewOk, RefsOk, CountsOk, RefChange, SameAddresses, SameTried, SameRandom;
    RefChangeSame(m, r, id);
    IdsTransfer(m, r);
    AddrTransfer(m, r);
    RandomTransfer(m, r);
    TriedTransfer(env, m, r);
    CountsTransfer(m, r, uncounted);
  }

  // One id moves into or out of the tried table, and nothing else changes.
  ghost predicate TriedChange(m: Man, r: Man, id: int) {
    && id in m.info && id in r.info
    && r == m.(info := m.info[id := m.info[id].(inTried := r.info[id].inTried)], triedTab := r.triedTab, nTried := r.nTried)
  }

  lemma {:induction false} TriedChangeSame(m: Man, r: Man, id: int)
    requires TriedChange(m, r, id)
    ensures SameAddresses(m, r) && SameRefs(m, r) && SameRandom(m, r) && r.addr == m.addr && r.newTab == m.newTab
  {
    assert r.info.Keys == m.info.Keys;
  }

  lemma {:induction false} TriedChangeKeeps(env: Env, m: Man, r: Man, id: int, loose: set<int>, loose': set<int>,
                                            uncounted: int, uncounted': int)
    requires Between(env, m, loose, uncounted) && TriedChange(m, r, id)
    requires TriedOk(env, r) && RefsOk(r, loose') && CountsOk(r, uncounted')
    ensures Between(env, r, loose', uncounted')
  {
    hide IdsOk, AddrOk, RandomOk, TriedOk, NewOk, RefsOk, CountsOk, TriedChange, SameAddresses, SameRefs, SameRandom;
    TriedChangeSame(m, r, id);
    IdsTransfer(m, r);
    AddrTransfer(m, r);
    RandomTransfer(m, r);
    NewTransfer(env, m, r);
  }

  lemma {:induction false} UnlinkKeeps(env: Env, m: Man, s: Slot, loose: set<int>, uncounted: int)
    requires Between(env, m, loose, uncounted) && s in m.newTab
    ensures var u, id := Unlink(m, s), m.newTab[s];
            Between(env, u, if u.info[id].refCount == 0 then loose + {id} else loose, uncounted)
  {
    hide IdsOk, AddrOk, RandomOk, TriedOk, RefsOk, CountsOk, Slots;
    var u, id := Unlink(m, s), m.newTab[s];
    UnlinkNewOk(env, m, s);
    UnlinkRefs(m, s, loose);
    RefChangeKeeps(env, m, u, id, loose, if u.info[id].refCount == 0 then loose + {id} else loose, uncounted);
  }

  lemma {:induction false} UnlinkRefs(m: Man, s: Slot, loose: set<int>)
    requires RefsOk(m, loose) && s in m.newTab && m.newTab[s] in m.info && m.info[m.newTab[s]].refCount > 0
    ensures var u, id := Unlink(m, s), m.newTab[s];
            RefsOk(u, if u.info[id].refCount == 0 then loose + {id} else loose)
  {
  }

  lemma {:induction false} UnlinkNewOk(env: Env, m: Man, s: Slot)
    requires NewOk(env, m) && s in m.newTab
    ensures NewOk(env, Unlink(m, s)) && m.info[m.newTab[s]].refCount > 0
  {
    var u, id := Unlink(m, s), m.newTab[s];
    assert s in Slots(m.newTab, id);
    forall n | n in u.info
      ensures u.info[n].refCount == |Slots(u.newTab, n)|
    {
      assert Slots(u.newTab, n) == Slots(m.newTab, n) - {s};
      assert n != id ==> s !in Slots(m.newTab, n);
    }
  }

  lemma {:induction false} ClearNewKeeps(env: Env, m: Man, s: Slot, loose: set<int>, uncounted: int)
    requires Between(env, m, loose, uncounted)
    ensures Between(env, ClearNew(m, s), loose, uncounted) && s !in ClearNew(m, s).newTab
  {
    if s in m.newTab {
      var id, u := m.newTab[s], Unlink(m, s);
      assert id !in loose by {
        assert s in Slots(m.newTab, id);
      }
      UnlinkKeeps(env, m, s, loose, uncounted);
      if u.info[id].refCount == 0 {
        DeleteKeeps(env, u, id, loose + {id}, uncounted);
        assert loose + {id} - {id} == loose;
      }
    }
  }

  lemma {:induction false} LinkKeeps(env: Env, m: Man, s: Slot, id: int, loose: set<int>, uncounted: int)
    requires Between(env, m, loose, uncounted)
    requires s !in m.newTab && id in m.info && !m.info[id].inTried
    requires m.info[id].refCount < NEW_BUCKETS_PER_ADDRESS
    requires s.bucket < NEW_BUCKET_COUNT
    requires s.pos == NewPosition(env, m.key, s.bucket, m.info[id].address.service)
    ensures Between(env, Link(m, s, id), loose - {id}, uncounted)
  {
    hide IdsOk, AddrOk, RandomOk, TriedOk, RefsOk, CountsOk, Slots;
    assert m.info[id].refCount >= 0;
    LinkNewOk(env, m, s, id);
    LinkRefs(m, s, id, loose);
    RefChangeKeeps(env, m, Link(m, s, id), id, loose, loose - {id}, uncounted);
  }

  lemma {:induction false} LinkRefs(m: Man, s: Slot, id: int, loose: set<int>)
    requires RefsOk(m, loose) && id in m.info && !m.info[id].inTried && 0 <= m.info[id].refCount < NEW_BUCKETS_PER_ADDRESS
    ensures RefsOk(Link(m, s, id), loose - {id})
  {
  }

  lemma {:induction false} LinkNewOk(env: Env, m: Man, s: Slot, id: int)
    requires NewOk(env, m) && s !in m.newTab && id in m.info && s.bucket < NEW_BUCKET_COUNT
    requires s.pos == NewPosition(env, m.key, s.bucket, m.info[id].address.service)
    ensures NewOk(env, Link(m, s, id))
  {
    var l := Link(m, s, id);
    forall n | n in l.info
      ensures l.info[n].refCount == |Slots(l.newTab, n)|
    {
      assert m.info[n].refCount == |Slots(m.newTab, n)|;
      if n == id {
        assert Slots(l.newTab, n) == Slots(m.newTab, n) + {s};
      } else {
        assert Slots(l.newTab, n) == Slots(m.newTab, n);
      }
    }
    forall t | t in l.newTab
      ensures l.newTab[t] in l.info && t.bucket < NEW_BUCKET_COUNT
      ensures t.pos == NewPosition(env, l.key, t.bucket, l.info[l.newTab[t]].address.service)
    {
      if t != s {
        assert m.newTab[t] in m.info && t.pos == NewPosition(env, m.key, t.bucket, m.info[m.newTab[t]].address.service);
      }
    }
  }

  lemma {:induction false} DetachKeeps(env: Env, m: Man, id: int, loose: set<int>, uncounted: int)
    requires Between(env, m, loose, uncounted) && id in m.info && !m.info[id].inTried
    ensures Between(env, Detach(m, id), loose + {id}, uncounted)
    ensures Detach(m, id).info[id].refCount == 0
  {
    hide IdsOk, AddrOk, RandomOk, TriedOk, RefsOk, CountsOk, Slots;
    assert m.info[id].refCount == |Slots(m.newTab, id)|;
    DetachNewOk(env, m, id);
    DetachRefs(m, id, loose);
    RefChangeKeeps(env, m, Detach(m, id), id, loose, loose + {id}, uncounted);
  }

  lemma {:induction false} DetachRefs(m: Man, id: int, loose: set<int>)
    requires RefsOk(m, loose) && id in m.info && !m.info[id].inTried && m.info[id].refCount == |Slots(m.newTab, id)|
    ensures RefsOk(Detach(m, id), loose + {id})
  {
    hide Slots;
  }

  lemma {:induction false} DetachNewOk(env: Env, m: Man, id: int)
    requires NewOk(env, m) && id in m.info
    ensures NewOk(env, Detach(m, id))
  {
    var d := Detach(m, id);
    forall n | n in d.info
      ensures d.info[n].refCount == |Slots(d.newTab, n)|
    {
      assert m.info[n].refCount == |Slots(m.newTab, n)|;
      if n == id {
        assert Slots(d.newTab, n) == {};
      } else {
        assert Slots(d.newTab, n) == Slots(m.newTab, n);
      }
    }
    forall t | t in d.newTab
      ensures d.newTab[t] in d.info && t.bucket < NEW_BUCKET_COUNT
      ensures t.pos == NewPosition(env, d.key, t.bucket, d.info[d.newTab[t]].address.service)
    {
      assert m.newTab[t] in m.info && t.pos == NewPosition(env, m.key, t.bucket, m.info[m.newTab[t]].address.service);
    }
  }

  lemma {:induction false} RetireKeeps(env: Env, m: Man, s: Slot, loose: set<int>, uncounted: int)
    requires Between(env, m, loose, uncounted) && s in m.triedTab
    ensures Between(env, Retire(m, s), loose + {m.triedTab[s]}, uncounted + 1)
  {
    hide IdsOk, AddrOk, RandomOk, NewOk, RefsOk, CountsOk;
    var id := m.triedTab[s];
    assert id in m.info;
    RetireTables(env, m, s, loose, uncounted);
    hide TriedOk;
    TriedChangeKeeps(env, m, Retire(m, s), id, loose, loose + {id}, uncounted, uncounted + 1);
  }

  lemma {:induction false} RetireTables(env: Env, m: Man, s: Slot, loose: set<int>, uncounted: int)
    requires TriedOk(env, m) && RefsOk(m, loose) && CountsOk(m, uncounted) && s in m.triedTab
    ensures TriedOk(env, Retire(m, s)) && RefsOk(Retire(m, s), loose + {m.triedTab[s]})
    ensures CountsOk(Retire(m, s), uncounted + 1)
  {
    var r, id := Retire(m, s), m.triedTab[s];
    assert TriedIds(r) == TriedIds(m) - {id} && id in TriedIds(m);
    assert NewIds(r) == NewIds(m) + {id} && id !in NewIds(m);
    forall t | t in r.triedTab
      ensures r.triedTab[t] in r.info && r.info[r.triedTab[t]].inTried
      ensures t == TriedSlot(env, r.key, r.info[r.triedTab[t]].address.service)
    {
      assert m.triedTab[t] in m.info && t == TriedSlot(env, m.key, m.info[m.triedTab[t]].address.service);
    }
    forall n | n in r.info && r.info[n].inTried
      ensures TriedSlot(env, r.key, r.info[n].address.service) in r.triedTab
      ensures r.triedTab[TriedSlot(env, r.key, r.info[n].address.service)] == n
    {
      assert n in m.info && m.triedTab[TriedSlot(env, m.key, m.info[n].address.service)] == n;
    }
  }

  lemma {:induction false} PromoteKeeps(env: Env, m: Man, s: Slot, id: int, loose: set<int>, uncounted: int)
    requires Between(env, m, loose, uncounted) && id in loose
    requires s !in m.triedTab && s == TriedSlot(env, m.key, m.info[id].address.service)
    ensures Between(env, Promote(m, s, id), loose - {id}, uncounted - 1)
  {
    hide IdsOk, AddrOk, RandomOk, TriedOk, NewOk, CountsOk;
    PromoteTables(env, m, s, id, loose, uncounted);
    PromoteCounts(m, s, id, loose, uncounted);
    hide RefsOk;
    TriedChangeKeeps(env, m, Promote(m, s, id), id, loose, loose - {id}, uncounted, uncounted - 1);
  }

  lemma {:induction false} PromoteTables(env: Env, m: Man, s: Slot, id: int, loose: set<int>, uncounted: int)
    requires TriedOk(env, m) && id in m.info
    requires s !in m.triedTab && s == TriedSlot(env, m.key, m.info[id].address.service)
    ensures TriedOk(env, Promote(m, s, id))
  {
    var p := Promote(m, s, id);
    forall t | t in p.triedTab
      ensures p.triedTab[t] in p.info && p.info[p.triedTab[t]].inTried
      ensures t == TriedSlot(env, p.key, p.info[p.triedTab[t]].address.service)
    {
      if t != s {
        assert m.triedTab[t] in m.info && t == TriedSlot(env, m.key, m.info[m.triedTab[t]].address.service);
      }
    }
    forall n | n in p.info && p.info[n].inTried
      ensures TriedSlot(env, p.key, p.info[n].address.service) in p.triedTab
      ensures p.triedTab[TriedSlot(env, p.key, p.info[n].address.service)] == n
    {
      if n != id {
        assert n in m.info && m.triedTab[TriedSlot(env, m.key, m.info[n].address.service)] == n;
      }
    }
  }

  lemma {:induction false} PromoteCounts(m: Man, s: Slot, id: int, loose: set<int>, uncounted: int)
    requires RefsOk(m, loose) && CountsOk(m, uncounted) && id in loose
    ensures RefsOk(Promote(m, s, id), loose - {id}) && CountsOk(Promote(m, s, id), uncounted - 1)
  {
    var p := Promote(m, s, id);
    assert TriedIds(p) == TriedIds(m) + {id} && id !in TriedIds(m);
    assert NewIds(p) == NewIds(m) - {id} && id in NewIds(m);
  }

  // ---- what survives a step ----

  // Ids may go, and counts and positions may move; nothing else changes.
  ghost predicate Survives(m: Man, r: Man) {
    && r.key == m.key && r.triedTab == m.triedTab && r.lastGood == m.lastGood && r.idCount == m.idCount
    && forall n :: n in r.info ==>
         n in m.info && r.info[n] == m.info[n].(refCount := r.info[n].refCount, randomPos := r.info[n].randomPos)
  }

  lemma {:induction false} DeleteSurvives(m: Man, id: int)
    requires RandomOk(m) && id in m.info
    ensures Survives(m, Delete(m, id)) && Delete(m, id).info.Keys == m.info.Keys - {id}
    ensures forall n :: n in m.info && n != id ==> Delete(m, id).info[n].refCount == m.info[n].refCount
  {
    hide RandomOk, Survives;
    SwapToLast(m, id);
    SwapSurvives(m, m.info[id].randomPos, |m.random| - 1);
    hide DropLast, SwapRandom;
    var r := SwapRandom(m, m.info[id].randomPos, |m.random| - 1);
    DropLastSurvives(r, id);
    SurvivesBoth(m, r, DropLast(r, id));
  }

  lemma {:induction false} SurvivesBoth(m: Man, r: Man, d: Man)
    requires Survives(m, r) && Survives(r, d)
    ensures Survives(m, d)
  {
  }

  lemma {:induction false} DeleteFields(r: Man, id: int)
    requires RandomOk(r) && id in r.info
    ensures var d := Delete(r, id);
            && d == r.(info := d.info, random := d.random, addr := r.addr - {r.info[id].Net()}, nNew := r.nNew - 1)
            && |d.random| == |r.random| - 1
  {
    SwapToLast(r, id);
    SwapSurvives(r, r.info[id].randomPos, |r.random| - 1);
  }

  lemma {:induction false} DropLastSurvives(r: Man, id: int)
    requires id in r.info && |r.random| > 0
    ensures Survives(r, DropLast(r, id)) && DropLast(r, id).info.Keys == r.info.Keys - {id}
    ensures forall n :: n in r.info && n != id ==> DropLast(r, id).info[n] == r.info[n]
  {
  }

  lemma {:induction false} SwapSurvives(m: Man, i: int, j: int)
    requires RandomOk(m) && 0 <= i < |m.random| && 0 <= j < |m.random|
    ensures var r := SwapRandom(m, i, j);
            && Survives(m, r) && r.info.Keys == m.info.Keys && |r.random| == |m.random|
            && (forall n :: n in m.info ==> r.info[n].refCount == m.info[n].refCount)
  {
    assert SwapRandom(m, i, j).info.Keys == m.info.Keys;
  }

  lemma {:induction false} ClearNewSurvives(env: Env, m: Man, s: Slot, loose: set<int>, uncounted: int)
    requires Between(env, m, loose, uncounted)
    ensures RandomOk(m) && (s in m.newTab ==> m.newTab[s] in m.info)
    ensures Survives(m, ClearNew(m, s))
    ensures forall n :: n in m.info && (s in m.newTab ==> n != m.newTab[s]) ==>
              n in ClearNew(m, s).info && ClearNew(m, s).info[n].refCount == m.info[n].refCount
  {
    hide AddrOk, CountsOk, IdsOk, TriedOk, RefsOk, RandomOk, Survives;
    assert s in m.newTab ==> m.newTab[s] in m.info;
    hide NewOk;
    if s in m.newTab {
      var id, u := m.newTab[s], Unlink(m, s);
      UnlinkSurvives(m, s);
      if u.info[id].refCount == 0 {
        hide Delete;
        DeleteSurvives(u, id);
        SurvivesBoth(m, u, Delete(u, id));
      }
    } else {
      SurvivesItself(m);
    }
  }

  lemma {:induction false} SurvivesItself(m: Man)
    ensures Survives(m, m)
  {
  }

  lemma {:induction false} UnlinkSurvives(m: Man, s: Slot)
    requires RandomOk(m) && s in m.newTab && m.newTab[s] in m.info
    ensures var u := Unlink(m, s); RandomOk(u) && Survives(m, u) && u.info.Keys == m.info.Keys
    ensures forall n :: n in m.info && n != m.newTab[s] ==> Unlink(m, s).info[n] == m.info[n]
  {
    assert Unlink(m, s).info.Keys == m.info.Keys;
    RandomTransfer(m, Unlink(m, s));
  }

  lemma {:induction false} Recount(env: Env, m: Man, more: int, loose: set<int>, uncounted: int)
    requires Between(env, m, loose, uncounted)
    ensures Between(env, m.(nNew := m.nNew + more), loose, uncounted - more)
  {
    var r := m.(nNew := m.nNew + more);
    AddrTransfer(m, r);
    RandomTransfer(m, r);
    TriedTransfer(env, m, r);
    NewTransfer(env, m, r);
    RefsTransfer(m, r, loose);
    assert TriedIds(r) == TriedIds(m) && NewIds(r) == NewIds(m);
  }

  // ---- making room in the tried table ----

  // The entry in a tried-table slot goes back to the new table, and whatever was in
  // its place there loses it.
  function Evict(env: Env, m: Man, s: Slot, ghost loose: set<int>, ghost uncounted: int): Man
    requires Between(env, m, loose, uncounted) && s in m.triedTab
  {
    var id := m.triedTab[s];
    var slot := NewSlot(env, m.key, m.info[id].address.service, m.info[id].source);
    RetireKeeps(env, m, s, loose, uncounted);
    ClearNewKeeps(env, Retire(m, s), slot, loose + {id}, uncounted + 1);
    var cleared := ClearNew(Retire(m, s), slot);
    SetRefCount(cleared, id, 1).(newTab := cleared.newTab[slot := id], nNew := cleared.nNew + 1)
  }

  lemma {:induction false} EvictKeeps(env: Env, m: Man, s: Slot, loose: set<int>, uncounted: int)
    requires EnvOk(env) && Between(env, m, loose, uncounted) && s in m.triedTab
    ensures Between(env, Evict(env, m, s, loose, uncounted), loose, uncounted)
    ensures s !in Evict(env, m, s, loose, uncounted).triedTab
    ensures Evict(env, m, s, loose, uncounted).key == m.key && Evict(env, m, s, loose, uncounted).lastGood == m.lastGood
    ensures forall n :: n in loose ==>
              n in m.info && n in Evict(env, m, s, loose, uncounted).info
              && Evict(env, m, s, loose, uncounted).info[n].address == m.info[n].address
  {
    hide AddrOk, CountsOk, IdsOk, NewOk, RandomOk;
    var id, retired := m.triedTab[s], Retire(m, s);
    assert id in m.info && m.info[id].inTried && id !in loose;
    var slot := NewSlot(env, m.key, m.info[id].address.service, m.info[id].source);
    RetireKeeps(env, m, s, loose, uncounted);
    ClearNewKeeps(env, retired, slot, loose + {id}, uncounted + 1);
    ClearNewSurvives(env, retired, slot, loose + {id}, uncounted + 1);
    var cleared := ClearNew(retired, slot);
    assert cleared.info[id].refCount == 0 && !cleared.info[id].inTried;
    LinkKeeps(env, cleared, slot, id, loose + {id}, uncounted + 1);
    assert loose + {id} - {id} == loose;
    Recount(env, Link(cleared, slot, id), 1, loose, uncounted + 1);
  }

  ghost predicate EnvOk(env: Env) {
    && (forall key, s, source :: env.newBucket(key, s, source) < NEW_BUCKET_COUNT)
    && (forall key, s :: env.triedBucket(key, s) < TRIED_BUCKET_COUNT)
    && (forall key, isNew, bucket, s :: env.position(key, isNew, bucket, s) < BUCKET_SIZE)
  }

  // ---- moving an entry to the tried table ----

  function MakeTried(env: Env, m: Man, id: int): Man
    requires EnvOk(env) && Inv(env, m) && id in m.info && !m.info[id].inTried
  {
    var slot := TriedSlot(env, m.key, m.info[id].address.service);
    var out := Detach(m, id).(nNew := m.nNew - 1);
    DetachedKeeps(env, m, id);
    var room := if slot in out.triedTab then Evict(env, out, slot, {id}, 1) else out;
    RoomKeeps(env, out, id, slot);
    Promote(room, slot, id)
  }

  lemma {:induction false} DetachedKeeps(env: Env, m: Man, id: int)
    requires Inv(env, m) && id in m.info && !m.info[id].inTried
    ensures Between(env, Detach(m, id).(nNew := m.nNew - 1), {id}, 1)
  {
    DetachKeeps(env, m, id, {}, 0);
    assert {} + {id} == {id};
    Recount(env, Detach(m, id), -1, {id}, 0);
  }

  lemma {:induction false} RoomKeeps(env: Env, out: Man, id: int, slot: Slot)
    requires EnvOk(env) && Between(env, out, {id}, 1)
    ensures var room := if slot in out.triedTab then Evict(env, out, slot, {id}, 1) else out;
            && Between(env, room, {id}, 1) && slot !in room.triedTab
            && id in room.info && id in out.info && room.info[id].address == out.info[id].address
            && room.key == out.key && room.lastGood == out.lastGood
  {
    hide AddrOk, CountsOk, IdsOk, NewOk, RandomOk, TriedOk;
    if slot in out.triedTab {
      EvictKeeps(env, out, slot, {id}, 1);
    }
  }

  lemma {:induction false} MakeTriedKeeps(env: Env, m: Man, id: int)
    requires EnvOk(env) && Inv(env, m) && id in m.info && !m.info[id].inTried
    ensures Inv(env, MakeTried(env, m, id))
  {
    hide AddrOk, CountsOk, IdsOk, NewOk, RandomOk, TriedOk, RefsOk;
    var slot := TriedSlot(env, m.key, m.info[id].address.service);
    var out := Detach(m, id).(nNew := m.nNew - 1);
    DetachedKeeps(env, m, id);
    RoomKeeps(env, out, id, slot);
    var room := if slot in out.triedTab then Evict(env, out, slot, {id}, 1) else out;
    PromoteKeeps(env, room, slot, id, {id}, 1);
    assert {id} - {id} == {};
  }

  // ---- the entry points ----

  // Good_: the entry was reached; it moves to the tried table.
  function Good(env: Env, m: Man, s: Service, time: int): Man
    requires EnvOk(env) && Inv(env, m)
  {
    var m1 := m.(lastGood := time);
    match Find(m, s.addr)
    case None => m1
    case Some(id) =>
      if m.info[id].address.service != s then m1
      else
        var i := m.info[id].(lastSuccess := time, lastTry := time, attempts := 0);
        StatsKeep(env, m, id, i, time);
        var m2 := SetInfo(m1, id, i);
        if i.inTried then m2 else MakeTried(env, m2, id)
  }

  function Attempt(m: Man, s: Service, countFailure: bool, time: int): Man {
    match Find(m, s.addr)
    case None => m
    case Some(id) =>
      var i := m.info[id];
      if i.address.service != s then m
      else if countFailure && i.lastCountAttempt < m.lastGood then
        SetInfo(m, id, i.(lastTry := time, lastCountAttempt := time, attempts := i.attempts + 1))
      else
        SetInfo(m, id, i.(lastTry := time))
  }

  function Connected(m: Man, s: Service, time: int): Man {
    match Find(m, s.addr)
    case None => m
    case Some(id) =>
      var i := m.info[id];
      if i.address.service != s || time - i.address.time <= 20 * 60 then m
      else SetInfo(m, id, i.(address := i.address.(time := time)))
  }

  function SetServices(m: Man, s: Service, services: set<nat>): Man {
    match Find(m, s.addr)
    case None => m
    case Some(id) =>
      var i := m.info[id];
      if i.address.service != s then m
      else SetInfo(m, id, i.(address := i.address.(services := services)))
  }

  function Max0(x: int): nat {
    if x < 0 then 0 else x
  }

  // What Add_ records about an address it already knows.
  function Refresh(i: AddrInfo, address: Address, penalty: int, now: int): AddrInfo {
    var interval := if now - address.time < SECONDS_PER_DAY then 60 * 60 else SECONDS_PER_DAY;
    var time :=
      if address.time != 0 && (i.address.time == 0 || i.address.time < address.time - interval - penalty)
      then Max0(address.time - penalty) else i.address.time;
    i.(address := i.address.(time := time, services := i.address.services + address.services))
  }

  // Whether Add_ gives a known entry another chance in the new table.
  predicate TriesAgain(i: AddrInfo, address: Address, random: nat) {
    && address.time != 0 && !(i.address.time != 0 && address.time <= i.address.time)
    && !i.inTried && i.refCount != NEW_BUCKETS_PER_ADDRESS
    && (Pow2(Max0(i.refCount)) > 1 ==> random % Pow2(Max0(i.refCount)) == 0)
  }

  predicate Overwrites(m: Man, slot: Slot, id: int, now: int)
    requires id in m.info && (slot in m.newTab ==> m.newTab[slot] in m.info)
  {
    slot !in m.newTab ||
    (var existing := m.info[m.newTab[slot]];
     existing.IsTerrible(now) || (existing.refCount > 1 && m.info[id].refCount == 0))
  }

  ghost predicate Placeable(env: Env, m: Man, id: int) {
    && EnvOk(env) && id in m.info && !m.info[id].inTried && m.info[id].refCount < NEW_BUCKETS_PER_ADDRESS
    && Between(env, m, if m.info[id].refCount == 0 then {id} else {}, 0)
  }

  // The end of Add_: give the entry its slot for this source, or drop it.
  function Place(env: Env, m: Man, id: int, source: NetAddr, now: int): Man
    requires Placeable(env, m, id)
  {
    var slot := NewSlot(env, m.key, m.info[id].address.service, source);
    if slot in m.newTab && m.newTab[slot] == id then m
    else if Overwrites(m, slot, id, now) then
      ClearNewKeepsEntry(env, m, id, slot);
      Link(ClearNew(m, slot), slot, id)
    else if m.info[id].refCount == 0 then Delete(m, id)
    else m
  }

  // Add_: learn of an address from `source`. The flag says whether it was unknown.
  function Add(env: Env, m: Man, address: Address, source: NetAddr, penalty: int, now: int, random: nat): (Man, bool)
    requires EnvOk(env) && Inv(env, m)
  {
    var penalty' := if address.service.addr == source then 0 else penalty;
    if !env.routable(address.service.addr) then (m, false)
    else
      match Find(m, address.service.addr)
      case Some(id) =>
        var i := Refresh(m.info[id], address, penalty', now);
        StatsKeep(env, m, id, i, m.lastGood);
        var m1 := SetInfo(m, id, i);
        KnownPlaceable(env, m1, id);
        if TriesAgain(i, address, random) then (Place(env, m1, id, source, now), false) else (m1, false)
      case None =>
        CreateKeeps(env, m, address, source, penalty');
        (Place(env, Learned(m, address, source, penalty'), m.idCount, source, now), true)
  }

  function Learned(m: Man, address: Address, source: NetAddr, penalty: int): Man {
    var created := Create(m, address.(time := Max0(address.time - penalty)), source);
    created.(nNew := m.nNew + 1)
  }

  lemma {:induction false} StatsKeep(env: Env, m: Man, id: int, i: AddrInfo, lastGood: int)
    requires Inv(env, m) && id in m.info
    requires i.address.service == m.info[id].address.service && i.refCount == m.info[id].refCount
    requires i.inTried == m.info[id].inTried && i.randomPos == m.info[id].randomPos
    ensures Inv(env, SetInfo(m, id, i).(lastGood := lastGood))
  {
    hide AddrOk, CountsOk, NewOk, RandomOk, TriedOk, RefsOk;
    var r := SetInfo(m, id, i).(lastGood := lastGood);
    assert r.info.Keys == m.info.Keys;
    StatsTransfer(env, m, r, {}, 0);
  }

  lemma {:induction false} KnownPlaceable(env: Env, m: Man, id: int)
    requires EnvOk(env) && Inv(env, m) && id in m.info
    ensures !m.info[id].inTried && m.info[id].refCount != NEW_BUCKETS_PER_ADDRESS ==> Placeable(env, m, id)
  {
    hide AddrOk, CountsOk, NewOk, RandomOk, TriedOk, IdsOk;
  }

  lemma {:induction false} CreateKeeps(env: Env, m: Man, address: Address, source: NetAddr, penalty: int)
    requires EnvOk(env) && Inv(env, m) && Find(m, address.service.addr).None?
    ensures Placeable(env, Learned(m, address, source, penalty), m.idCount)
  {
    var c := Learned(m, address, source, penalty);
    CreateAddr(m, address, source, penalty);
    CreateRandom(m, address, source, penalty);
    CreateRefs(m, address, source, penalty);
    CreateCounts(m, address, source, penalty);
    CreateTried(env, m, address, source, penalty);
    CreateNew(env, m, address, source, penalty);
  }

  lemma {:induction false} CreateAddr(m: Man, address: Address, source: NetAddr, penalty: int)
    requires IdsOk(m) && AddrOk(m) && Find(m, address.service.addr).None?
    ensures AddrOk(Learned(m, address, source, penalty))
  {
    var c, id := Learned(m, address, source, penalty), m.idCount;
    forall n | n in c.info
      ensures c.info[n].Net() in c.addr && c.addr[c.info[n].Net()] == n
    {
      if n != id {
        assert m.addr[m.info[n].Net()] == n;
      }
    }
    forall a | a in c.addr
      ensures c.addr[a] in c.info && c.info[c.addr[a]].Net() == a
    {
      if a != address.service.addr {
        assert m.addr[a] in m.info && m.info[m.addr[a]].Net() == a;
      }
    }
  }

  lemma {:induction false} CreateRandom(m: Man, address: Address, source: NetAddr, penalty: int)
    requires IdsOk(m) && RandomOk(m)
    ensures RandomOk(Learned(m, address, source, penalty))
  {
    var c, id := Learned(m, address, source, penalty), m.idCount;
    assert c.info.Keys == m.info.Keys + {id} && id !in m.info;
    forall i | 0 <= i < |c.random|
      ensures c.random[i] in c.info && c.info[c.random[i]].randomPos == i
    {
      if i < |m.random| {
        assert m.random[i] in m.info && m.info[m.random[i]].randomPos == i;
      }
    }
    forall n | n in c.info
      ensures 0 <= c.info[n].randomPos < |c.random| && c.random[c.info[n].randomPos] == n
    {
      if n != id {
        assert m.random[m.info[n].randomPos] == n;
      }
    }
  }

  lemma {:induction false} CreateTried(env: Env, m: Man, address: Address, source: NetAddr, penalty: int)
    requires IdsOk(m) && TriedOk(env, m)
    ensures TriedOk(env, Learned(m, address, source, penalty))
  {
    var c, id := Learned(m, address, source, penalty), m.idCount;
    assert id !in m.info;
    forall n | n in c.info && c.info[n].inTried
      ensures TriedSlot(env, c.key, c.info[n].address.service) in c.triedTab
      ensures c.triedTab[TriedSlot(env, c.key, c.info[n].address.service)] == n
    {
      assert n in m.info && m.triedTab[TriedSlot(env, m.key, m.info[n].address.service)] == n;
    }
    forall t | t in c.triedTab
      ensures c.triedTab[t] in c.info && c.info[c.triedTab[t]].inTried
      ensures t == TriedSlot(env, c.key, c.info[c.triedTab[t]].address.service)
    {
      assert m.triedTab[t] in m.info && t == TriedSlot(env, m.key, m.info[m.triedTab[t]].address.service);
    }
  }

  lemma {:induction false} CreateRefs(m: Man, address: Address, source: NetAddr, penalty: int)
    requires IdsOk(m) && RefsOk(m, {})
    ensures var c := Learned(m, address, source, penalty); IdsOk(c) && RefsOk(c, {m.idCount})
  {
    var c, id := Learned(m, address, source, penalty), m.idCount;
    assert id !in m.info;
    forall n
      ensures n in c.info <==> n in m.info || n == id
    {
    }
  }

  lemma {:induction false} CreateCounts(m: Man, address: Address, source: NetAddr, penalty: int)
    requires IdsOk(m) && CountsOk(m, 0)
    ensures CountsOk(Learned(m, address, source, penalty), 0)
  {
    var c, id := Learned(m, address, source, penalty), m.idCount;
    OneMoreId(m, c, id);
  }

  lemma {:induction false} OneMoreId(m: Man, c: Man, id: int)
    requires id !in m.info && id in c.info && c.info == m.info[id := c.info[id]] && !c.info[id].inTried
    ensures TriedIds(c) == TriedIds(m)
    ensures NewIds(c) == NewIds(m) + {id} && id !in NewIds(m)
  {
    forall n | n != id
      ensures n in TriedIds(c) <==> n in TriedIds(m)
      ensures n in NewIds(c) <==> n in NewIds(m)
    {
    }
  }

  lemma {:induction false} CreateNew(env: Env, m: Man, address: Address, source: NetAddr, penalty: int)
    requires IdsOk(m) && NewOk(env, m)
    ensures NewOk(env, Learned(m, address, source, penalty))
  {
    var c, id := Learned(m, address, source, penalty), m.idCount;
    forall n | n in c.info
      ensures c.info[n].refCount == |Slots(c.newTab, n)|
    {
      if n == id {
        assert Slots(c.newTab, id) == {};
      } else {
        assert m.info[n].refCount == |Slots(m.newTab, n)|;
      }
    }
    forall t | t in c.newTab
      ensures c.newTab[t] in c.info && t.bucket < NEW_BUCKET_COUNT
      ensures t.pos == NewPosition(env, c.key, t.bucket, c.info[c.newTab[t]].address.service)
    {
      assert m.newTab[t] in m.info && t.pos == NewPosition(env, m.key, t.bucket, m.info[m.newTab[t]].address.service);
    }
  }

  lemma {:induction false} ClearNewKeepsEntry(env: Env, m: Man, id: int, slot: Slot)
    requires Placeable(env, m, id) && !(slot in m.newTab && m.newTab[slot] == id)
    ensures slot in m.newTab ==> m.newTab[slot] in m.info
    ensures RandomOk(m) && id in ClearNew(m, slot).info
    ensures ClearNew(m, slot).info[id].refCount == m.info[id].refCount
    ensures Placeable(env, ClearNew(m, slot), id)
  {
    hide AddrOk, CountsOk, NewOk, TriedOk, IdsOk, RefsOk;
    var loose := if m.info[id].refCount == 0 then {id} else {};
    ClearNewKeeps(env, m, slot, loose, 0);
    ClearNewSurvives(env, m, slot, loose, 0);
  }

  lemma {:induction false} PlaceKeeps(env: Env, m: Man, id: int, source: NetAddr, now: int)
    requires Placeable(env, m, id)
    ensures Inv(env, Place(env, m, id, source, now))
  {
    hide AddrOk, CountsOk, NewOk, TriedOk, IdsOk, RandomOk;
    var slot := NewSlot(env, m.key, m.info[id].address.service, source);
    var loose := if m.info[id].refCount == 0 then {id} else {};
    if slot in m.newTab && m.newTab[slot] == id {
      ListedNotLoose(env, m, slot, loose);
    } else {
      ClearNewKeepsEntry(env, m, id, slot);
      if Overwrites(m, slot, id, now) {
        ClearNewSurvives(env, m, slot, loose, 0);
        ClearNewKeeps(env, m, slot, loose, 0);
        LinkKeeps(env, ClearNew(m, slot), slot, id, loose, 0);
        assert loose - {id} == {};
      } else if m.info[id].refCount == 0 {
        DeleteKeeps(env, m, id, {id}, 0);
        assert {id} - {id} == {};
      }
    }
  }

  lemma {:induction false} ListedNotLoose(env: Env, m: Man, slot: Slot, loose: set<int>)
    requires NewOk(env, m) && slot in m.newTab
    ensures m.newTab[slot] in m.info && m.info[m.newTab[slot]].refCount > 0
  {
    assert slot in Slots(m.newTab, m.newTab[slot]);
  }

  // ---- every entry point keeps the invariant ----

  lemma {:induction false} GoodKeeps(env: Env, m: Man, s: Service, time: int)
    requires EnvOk(env) && Inv(env, m)
    ensures Inv(env, Good(env, m, s, time))
  {
    hide Between, MakeTried;
    var found := Find(m, s.addr);
    if found.Some? && m.info[found.value].address.service == s {
      var id := found.value;
      var i := m.info[id].(lastSuccess := time, lastTry := time, attempts := 0);
      StatsKeep(env, m, id, i, time);
      if !i.inTried {
        MakeTriedKeeps(env, SetInfo(m.(lastGood := time), id, i), id);
      }
    } else {
      LastGoodKeeps(env, m, time);
    }
  }

  lemma {:induction false} LastGoodKeeps(env: Env, m: Man, time: int)
    requires Inv(env, m)
    ensures Inv(env, m.(lastGood := time))
  {
    hide AddrOk, CountsOk, NewOk, RandomOk, TriedOk, RefsOk;
    StatsTransfer(env, m, m.(lastGood := time), {}, 0);
  }

  lemma {:induction false} AddKeeps(env: Env, m: Man, address: Address, source: NetAddr, penalty: int, now: int, random: nat)
    requires EnvOk(env) && Inv(env, m)
    ensures Inv(env, Add(env, m, address, source, penalty, now, random).0)
  {
    hide Between, Place, Placeable;
    var penalty' := if address.service.addr == source then 0 else penalty;
    var found := Find(m, address.service.addr);
    if found.Some? {
      var id, i := found.value, Refresh(m.info[found.value], address, penalty', now);
      StatsKeep(env, m, id, i, m.lastGood);
      var m1 := SetInfo(m, id, i);
      KnownPlaceable(env, m1, id);
      if TriesAgain(i, address, random) {
        PlaceKeeps(env, m1, id, source, now);
      }
    } else {
      CreateKeeps(env, m, address, source, penalty');
      PlaceKeeps(env, Learned(m, address, source, penalty'), m.idCount, source, now);
    }
  }

  lemma {:induction false} MinorKeeps(env: Env, m: Man, s: Service, countFailure: bool, time: int, services: set<nat>)
    requires Inv(env, m)
    ensures Inv(env, Attempt(m, s, countFailure, time))
    ensures Inv(env, Connected(m, s, time))
    ensures Inv(env, SetServices(m, s, services))
  {
    hide Between;
    var found := Find(m, s.addr);
    if found.Some? {
      var id, i := found.value, m.info[found.value];
      StatsKeep(env, m, id, i.(lastTry := time, lastCountAttempt := time, attempts := i.attempts + 1), m.lastGood);
      StatsKeep(env, m, id, i.(lastTry := time), m.lastGood);
      StatsKeep(env, m, id, i.(address := i.address.(time := time)), m.lastGood);
      StatsKeep(env, m, id, i.(address := i.address.(services := services)), m.lastGood);
    }
  }

  // ---- GetAddr_ ----

  const GETADDR_MAX_PCT := 23
  const GETADDR_MAX := 2500

  function GetAddrLimit(m: Man): nat {
    var n := GETADDR_MAX_PCT * |m.random| / 100;
    if n > GETADDR_MAX then GETADDR_MAX else n
  }

  // RandomInt(size - n) + n
  function Draw(picks: nat -> nat, n: nat, size: nat): (j: nat)
    requires n < size
    ensures n <= j < size
  {
    picks(n) % (size - n) + n
  }

  // The loop of GetAddr_ from its n-th round on: `picks` are the random draws.
  function GetAddrFrom(env: Env, m: Man, picks: nat -> nat, now: int, n: nat, found: seq<Address>): (Man, seq<Address>)
    requires Inv(env, m) && n <= |m.random|
    decreases |m.random| - n
  {
    if n == |m.random| || |found| >= GetAddrLimit(m) then (m, found)
    else
      var j := Draw(picks, n, |m.random|);
      SwapRandomKeeps(env, m, n, j, {}, 0);
      var m1 := SwapRandom(m, n, j);
      var i := m1.info[m1.random[n]];
      GetAddrFrom(env, m1, picks, now, n + 1, if i.IsTerrible(now) then found else found + [i.address])
  }

  // An address some entry in vRandom[..n] has, that is worth telling.
  ghost predicate Tellable(m: Man, n: nat, a: Address, now: int)
    requires n <= |m.random|
  {
    exists k :: 0 <= k < n && m.random[k] in m.info && m.info[m.random[k]].address == a && !m.info[m.random[k]].IsTerrible(now)
  }

  // No two addresses told share an IP, and each belongs to an entry worth telling.
  ghost predicate Told(m: Man, n: nat, told: seq<Address>, now: int)
    requires n <= |m.random|
  {
    && (forall a :: a in told ==> Tellable(m, n, a, now))
    && (forall i, j :: 0 <= i < j < |told| ==> told[i].service.addr != told[j].service.addr)
  }

  // GetAddr_ keeps the invariant and its quota, and changes nothing but the order
  // of vRandom.
  lemma {:induction false} GetAddrKeeps(env: Env, m: Man, picks: nat -> nat, now: int, n: nat, found: seq<Address>)
    requires Inv(env, m) && n <= |m.random|
    requires |found| <= GetAddrLimit(m) && Told(m, n, found, now)
    ensures var (r, told) := GetAddrFrom(env, m, picks, now, n, found);
            && Inv(env, r) && Shuffled(m, r)
            && |told| <= GetAddrLimit(m) && Told(r, |r.random|, told, now)
    decreases |m.random| - n
  {
    hide Between, Told, RandomOk;
    if n == |m.random| || |found| >= GetAddrLimit(m) {
      ToldMonotone(m, n, found, now);
    } else {
      var j := Draw(picks, n, |m.random|);
      SwapRandomKeeps(env, m, n, j, {}, 0);
      ToldStep(env, m, n, j, found, now);
      var m1 := SwapRandom(m, n, j);
      var i := m1.info[m1.random[n]];
      GetAddrKeeps(env, m1, picks, now, n + 1, if i.IsTerrible(now) then found else found + [i.address]);
    }
  }

  lemma {:induction false} ToldMonotone(m: Man, n: nat, told: seq<Address>, now: int)
    requires n <= |m.random| && Told(m, n, told, now)
    ensures Told(m, |m.random|, told, now)
  {
    forall a | a in told
      ensures Tellable(m, |m.random|, a, now)
    {
      var k :| 0 <= k < n && m.random[k] in m.info && m.info[m.random[k]].address == a && !m.info[m.random[k]].IsTerrible(now);
    }
  }

  lemma {:induction false} ToldStep(env: Env, m: Man, n: nat, j: nat, found: seq<Address>, now: int)
    requires Inv(env, m) && n <= j < |m.random| && Told(m, n, found, now)
    ensures RandomOk(m) && Shuffled(m, SwapRandom(m, n, j))
    ensures var m1 := SwapRandom(m, n, j);
            && m1.random[n] in m1.info
            && (var i := m1.info[m1.random[n]];
                Told(m1, n + 1, if i.IsTerrible(now) then found else found + [i.address], now))
  {
    hide CountsOk, NewOk, TriedOk, RefsOk, IdsOk, AddrOk, Tellable, SwapRandom;
    ShuffledSwap(m, n, j);
    SwapRandomOk(m, n, j);
    var m1 := SwapRandom(m, n, j);
    assert m1.random[n] in m1.info;
    hide RandomOk, Shuffled;
    forall a | a in found
      ensures Tellable(m1, n + 1, a, now) && a.service.addr != m1.info[m1.random[n]].Net()
    {
      FoundEarlier(env, m, n, j, a, now);
    }
    ToldMore(m1, n, found, now);
  }

  lemma {:induction false} ToldMore(m: Man, n: nat, found: seq<Address>, now: int)
    requires n < |m.random| && m.random[n] in m.info
    requires forall i, j :: 0 <= i < j < |found| ==> found[i].service.addr != found[j].service.addr
    requires forall a :: a in found ==> Tellable(m, n + 1, a, now) && a.service.addr != m.info[m.random[n]].Net()
    ensures var i := m.info[m.random[n]];
            Told(m, n + 1, if i.IsTerrible(now) then found else found + [i.address], now)
  {
    var i := m.info[m.random[n]];
    assert !i.IsTerrible(now) ==> Tellable(m, n + 1, i.address, now);
    hide Tellable;
  }

  ghost predicate Shuffled(m: Man, r: Man) {
    && r.info.Keys == m.info.Keys && |r.random| == |m.random|
    && (forall k :: k in m.info ==> r.info[k] == m.info[k].(randomPos := r.info[k].randomPos))
    && r == m.(info := r.info, random := r.random)
  }

  lemma {:induction false} ShuffledSwap(m: Man, i: int, j: int)
    requires RandomOk(m) && 0 <= i < |m.random| && 0 <= j < |m.random|
    ensures Shuffled(m, SwapRandom(m, i, j))
  {
    var r := SwapRandom(m, i, j);
    assert r.info.Keys == m.info.Keys;
  }

  // What was told before round n stays before position n, so round n tells another.
  lemma {:induction false} FoundEarlier(env: Env, m: Man, n: nat, j: nat, a: Address, now: int)
    requires Inv(env, m) && n <= j < |m.random| && Tellable(m, n, a, now)
    ensures var m1 := SwapRandom(m, n, j);
            && RandomOk(m1) && m1.random[n] in m1.info && |m1.random| == |m.random|
            && Tellable(m1, n, a, now) && Tellable(m1, n + 1, a, now)
            && a.service.addr != m1.info[m1.random[n]].Net()
  {
    hide CountsOk, NewOk, TriedOk, RefsOk, IdsOk, RandomOk, SwapRandom;
    var k :| 0 <= k < n && m.random[k] in m.info && m.info[m.random[k]].address == a && !m.info[m.random[k]].IsTerrible(now);
    EarlierStays(m, n, j, k);
    assert m.addr[m.info[m.random[j]].Net()] == m.random[j] && m.addr[m.info[m.random[k]].Net()] == m.random[k];
  }

  lemma {:induction false} EarlierStays(m: Man, n: nat, j: nat, k: nat)
    requires RandomOk(m) && k < n <= j < |m.random|
    ensures var m1, id, other := SwapRandom(m, n, j), m.random[k], m.random[j];
            && RandomOk(m1) && |m1.random| == |m.random| && id != other && id in m.info && other in m.info
            && m1.random[k] == id && id in m1.info && m1.info[id] == m.info[id]
            && m1.random[n] == other && other in m1.info && m1.info[other].address == m.info[other].address
  {
    SwapRandomOk(m, n, j);
    assert m.info[m.random[k]].randomPos == k && m.info[m.random[j]].randomPos == j && m.info[m.random[n]].randomPos == n;
  }
}
