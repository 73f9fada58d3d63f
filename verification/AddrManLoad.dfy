// What loading an address manager computes from any stream (src/addrman.h:345-449), and
// for which streams the result is consistent.

module AddrManLoad {
  import opened Basics
  import opened AddrManState
  import opened AddrMan

  // What a CAddrInfo keeps on disk.
  datatype Stored = Stored(address: Address, source: NetAddr, lastSuccess: int, attempts: int)

  datatype Token = Byte(b: nat) | Key(key: nat) | Int(n: int) | Info(stored: Stored)

  const VERSION := 1
  const KEY_SIZE := 32
  const MARK := 0x4000_0000

  // x XOR 2^30 on a two's complement integer.
  function ToggleMark(x: int): int {
    if (x / MARK) % 2 == 0 then x + MARK else x - MARK
  }

  function ToStored(i: AddrInfo): Stored {
    Stored(i.address, i.source, i.lastSuccess, i.attempts)
  }

  function FreshInfo(st: Stored): AddrInfo {
    AddrInfo(st.address, st.source, st.lastSuccess, 0, 0, st.attempts, 0, false, -1)
  }

  // ---- what each section of a stream does ----

  datatype Progress = Progress(man: Man, rest: seq<Token>)

  function Enter(m: Man, id: int, i: AddrInfo): Man {
    m.(info := m.info[id := i.(randomPos := |m.random|)], addr := m.addr[i.Net() := id], random := m.random + [id])
  }

  // One new entry. If the new table cannot be used it gets a reference from its source.
  function EnterNew(env: Env, m: Man, st: Stored, n: int, usable: bool): Man {
    var entered, s := Enter(m, n, FreshInfo(st)), NewSlot(env, m.key, st.address.service, st.source);
    if usable || s in m.newTab then entered else Link(entered, s, n)
  }

  function NewSection(env: Env, m: Man, rest: seq<Token>, n: int, usable: bool): Option<Progress>
    decreases m.nNew - n
  {
    if n >= m.nNew then Some(Progress(m, rest))
    else if |rest| == 0 || !rest[0].Info? then None
    else NewSection(env, EnterNew(env, m, rest[0].stored, n, usable), rest[1..], n + 1, usable)
  }

  // One tried entry; it is lost if its slot is taken.
  function EnterTried(env: Env, m: Man, st: Stored): Man {
    var s := TriedSlot(env, m.key, st.address.service);
    if s in m.triedTab then m.(nTried := m.nTried - 1)
    else
      Enter(m, m.idCount, FreshInfo(st).(inTried := true))
      .(idCount := m.idCount + 1, triedTab := Written(m.triedTab, s, m.idCount))
  }

  function TriedSection(env: Env, m: Man, rest: seq<Token>, left: int): Option<Progress>
    decreases left
  {
    if left <= 0 then Some(Progress(m, rest))
    else if |rest| == 0 || !rest[0].Info? then None
    else TriedSection(env, EnterTried(env, m, rest[0].stored), rest[1..], left - 1)
  }

  // One index of the new table. It is skipped if it is out of range, if its slot is taken or
  // if its entry has all the references it may have.
  function Indexed(env: Env, m: Man, index: int, bucket: nat, usable: bool): Man {
    if 0 <= index < m.nNew && index in m.info && usable then
      var s := Slot(bucket, NewPosition(env, m.key, bucket, m.info[index].address.service));
      if s !in m.newTab && m.info[index].refCount < NEW_BUCKETS_PER_ADDRESS then Link(m, s, index) else m
    else m
  }

  function BucketSection(env: Env, m: Man, rest: seq<Token>, bucket: nat, left: int, usable: bool): Option<Progress>
    decreases left
  {
    if left <= 0 then Some(Progress(m, rest))
    else if |rest| == 0 || !rest[0].Int? then None
    else BucketSection(env, Indexed(env, m, rest[0].n, bucket, usable), rest[1..], bucket, left - 1, usable)
  }

  function BucketsSection(env: Env, m: Man, rest: seq<Token>, bucket: nat, nUBuckets: int, usable: bool): Option<Man>
    decreases nUBuckets - bucket
  {
    if bucket >= nUBuckets then Some(m)
    else if |rest| == 0 || !rest[0].Int? then None
    else
      match BucketSection(env, m, rest[1..], bucket, rest[0].n, usable)
      case None => None
      case Some(p) => BucketsSection(env, p.man, p.rest, bucket + 1, nUBuckets, usable)
  }

  predicate HeaderOk(stream: seq<Token>) {
    && |stream| >= 6 && stream[0].Byte? && stream[1].Byte? && stream[1].b == KEY_SIZE
    && stream[2].Key? && stream[3].Int? && stream[4].Int? && stream[5].Int?
    && stream[3].n <= NEW_BUCKET_COUNT * BUCKET_SIZE && stream[4].n <= TRIED_BUCKET_COUNT * BUCKET_SIZE
  }

  function UBuckets(stream: seq<Token>): int
    requires HeaderOk(stream)
  {
    if stream[0].b != 0 then ToggleMark(stream[5].n) else stream[5].n
  }

  predicate Usable(stream: seq<Token>)
    requires HeaderOk(stream)
  {
    stream[0].b == VERSION && UBuckets(stream) == NEW_BUCKET_COUNT
  }

  function Start(stream: seq<Token>): Man
    requires HeaderOk(stream)
  {
    Man(stream[2].key, 0, map[], map[], [], stream[4].n, map[], stream[3].n, map[], 1)
  }

  // The three sections.
  function ReadFrom(env: Env, m: Man, rest: seq<Token>, nUBuckets: int, usable: bool): Option<Man> {
    match NewSection(env, m, rest, 0, usable)
    case None => None
    case Some(p) =>
      match TriedSection(env, p.man.(idCount := p.man.nNew), p.rest, p.man.nTried)
      case None => None
      case Some(q) => BucketsSection(env, q.man, q.rest, 0, nUBuckets, usable)
  }

  // Everything that is read, before entries without a reference are dropped; None for
  // the streams on which loading throws.
  function Load(env: Env, stream: seq<Token>): Option<Man> {
    if HeaderOk(stream) then ReadFrom(env, Start(stream), stream[6..], UBuckets(stream), Usable(stream)) else None
  }

  // ---- what holds while reading ----

  // mapAddr knows every address, and for each one of the entries that have it.
  ghost predicate AddrBack(m: Man) {
    && (forall n :: n in m.info ==> m.info[n].Net() in m.addr)
    && (forall a :: a in m.addr ==> m.addr[a] in m.info && m.info[m.addr[a]].Net() == a)
  }

  ghost predicate RefsLoaded(m: Man) {
    forall n :: n in m.info ==>
      && (m.info[n].inTried <==> n >= m.nNew) && (m.info[n].inTried ==> m.info[n].refCount == 0)
      && m.info[n].refCount <= NEW_BUCKETS_PER_ADDRESS
  }

  // The first `count` ids have been read.
  ghost predicate Read(env: Env, m: Man, count: int) {
    && (forall k :: k in m.info <==> 0 <= k < count)
    && RandomOk(m) && TriedOk(env, m) && NewOk(env, m) && AddrBack(m) && RefsLoaded(m)
  }

  lemma {:induction false} RandomAppend(m: Man, r: Man, id: int)
    requires RandomOk(m) && id !in m.info && r.random == m.random + [id]
    requires r.info.Keys == m.info.Keys + {id} && r.info[id].randomPos == |m.random|
    requires forall k :: k in m.info ==> r.info[k] == m.info[k]
    ensures RandomOk(r)
  {
    assert |r.info.Keys| == |m.info.Keys| + 1;
    forall i | 0 <= i < |r.random|
      ensures r.random[i] in r.info && r.info[r.random[i]].randomPos == i
    {
      if i < |m.random| {
        assert m.random[i] in m.info && m.info[m.random[i]].randomPos == i;
        assert r.random[i] == m.random[i];
      }
    }
    forall n | n in r.info
      ensures 0 <= r.info[n].randomPos < |r.random| && r.random[r.info[n].randomPos] == n
    {
      if n != id {
        assert n in m.info && m.random[m.info[n].randomPos] == n;
      }
    }
  }

  lemma {:induction false} EnterRandom(m: Man, id: int, i: AddrInfo)
    requires RandomOk(m) && id !in m.info
    ensures RandomOk(Enter(m, id, i)) && Enter(m, id, i).info.Keys == m.info.Keys + {id}
    ensures forall k :: k in m.info ==> Enter(m, id, i).info[k] == m.info[k]
  {
    var e := Enter(m, id, i);
    assert e.info.Keys == m.info.Keys + {id};
    RandomAppend(m, e, id);
  }

  lemma {:induction false} EnterAddr(m: Man, id: int, i: AddrInfo)
    requires AddrBack(m) && id !in m.info
    ensures AddrBack(Enter(m, id, i))
  {
    var e := Enter(m, id, i);
    forall a | a in e.addr
      ensures e.addr[a] in e.info && e.info[e.addr[a]].Net() == a
    {
      if a != i.Net() {
        assert m.addr[a] in m.info && m.info[m.addr[a]].Net() == a;
      }
    }
  }

  // A new id is in no slot.
  lemma {:induction false} EnterNewOk(env: Env, m: Man, id: int, i: AddrInfo)
    requires NewOk(env, m) && id !in m.info && i.refCount == 0
    ensures NewOk(env, Enter(m, id, i))
  {
    var e := Enter(m, id, i);
    assert Slots(m.newTab, id) == {};
    forall s | s in e.newTab
      ensures e.newTab[s] in e.info && s.bucket < NEW_BUCKET_COUNT
      ensures s.pos == NewPosition(env, e.key, s.bucket, e.info[e.newTab[s]].address.service)
    {
      assert m.newTab[s] in m.info && s.pos == NewPosition(env, m.key, s.bucket, m.info[m.newTab[s]].address.service);
    }
    forall n | n in e.info
      ensures e.info[n].refCount == |Slots(e.newTab, n)|
    {
      assert n != id ==> m.info[n].refCount == |Slots(m.newTab, n)|;
    }
  }

  lemma {:induction false} EnterTriedOk(env: Env, m: Man, id: int, i: AddrInfo)
    requires TriedOk(env, m) && id !in m.info && !i.inTried
    ensures TriedOk(env, Enter(m, id, i))
  {
    var e := Enter(m, id, i);
    forall s | s in e.triedTab
      ensures e.triedTab[s] in e.info && e.info[e.triedTab[s]].inTried
      ensures s == TriedSlot(env, e.key, e.info[e.triedTab[s]].address.service)
    {
      assert m.triedTab[s] in m.info && s == TriedSlot(env, m.key, m.info[m.triedTab[s]].address.service);
    }
    forall n | n in e.info && e.info[n].inTried
      ensures TriedSlot(env, e.key, e.info[n].address.service) in e.triedTab
      ensures e.triedTab[TriedSlot(env, e.key, e.info[n].address.service)] == n
    {
      assert n in m.info && m.info[n].inTried;
    }
  }

  lemma {:induction false} EnterRefs(m: Man, id: int, i: AddrInfo)
    requires RefsLoaded(m) && i.refCount == 0 && (i.inTried <==> id >= m.nNew)
    ensures RefsLoaded(Enter(m, id, i))
  {
  }

  // A reference more, in a free slot.
  lemma {:induction false} LinkRead(env: Env, m: Man, s: Slot, id: int, count: int)
    requires Read(env, m, count) && s !in m.newTab && id in m.info && !m.info[id].inTried
    requires m.info[id].refCount < NEW_BUCKETS_PER_ADDRESS && s.bucket < NEW_BUCKET_COUNT
    requires s.pos == NewPosition(env, m.key, s.bucket, m.info[id].address.service)
    ensures Read(env, Link(m, s, id), count)
  {
    var l := Link(m, s, id);
    LinkNewOk(env, m, s, id);
    LinkRefsLoaded(m, s, id);
    hide RandomOk, TriedOk, NewOk, AddrBack, RefsLoaded;
    RefChangeSame(m, l, id);
    RandomTransfer(m, l);
    TriedTransfer(env, m, l);
    AddrBackTransfer(m, l);
  }

  lemma {:induction false} LinkRefsLoaded(m: Man, s: Slot, id: int)
    requires RefsLoaded(m) && id in m.info && !m.info[id].inTried && m.info[id].refCount < NEW_BUCKETS_PER_ADDRESS
    ensures RefsLoaded(Link(m, s, id))
  {
  }

  lemma {:induction false} AddrBackTransfer(m: Man, r: Man)
    requires AddrBack(m) && SameAddresses(m, r) && r.addr == m.addr
    ensures AddrBack(r)
  {
    forall n | n in r.info
      ensures r.info[n].Net() in r.addr
    {
      assert n in m.info && m.info[n].Net() in m.addr;
    }
    forall a | a in r.addr
      ensures r.addr[a] in r.info && r.info[r.addr[a]].Net() == a
    {
      var n := m.addr[a];
      assert n in m.info && m.info[n].Net() == a;
      assert r.info[n].address.service == m.info[n].address.service;
    }
  }

  lemma {:induction false} EnterKeys(m: Man, count: int, i: AddrInfo)
    requires (forall k :: k in m.info <==> 0 <= k < count) && count >= 0
    ensures forall k :: k in Enter(m, count, i).info <==> 0 <= k < count + 1
  {
  }

  // All but the tried table.
  lemma {:induction false} EnterRead(env: Env, m: Man, count: int, i: AddrInfo)
    requires Read(env, m, count) && count >= 0 && i.refCount == 0 && (i.inTried <==> count >= m.nNew)
    ensures var e := Enter(m, count, i);
            && (forall k :: k in e.info <==> 0 <= k < count + 1)
            && RandomOk(e) && NewOk(env, e) && AddrBack(e) && RefsLoaded(e)
  {
    hide RandomOk, TriedOk, NewOk, AddrBack, RefsLoaded, Enter;
    EnterKeys(m, count, i);
    EnterRandom(m, count, i);
    EnterAddr(m, count, i);
    EnterNewOk(env, m, count, i);
    EnterRefs(m, count, i);
  }

  lemma {:induction false} Entered(m: Man, n: int, i: AddrInfo)
    ensures var e := Enter(m, n, i);
            && n in e.info && e.info[n] == i.(randomPos := |m.random|) && e.newTab == m.newTab && e.key == m.key
            && SameCounters(m, e)
  {
  }

  lemma {:induction false} EnterNewRead(env: Env, m: Man, st: Stored, n: int, usable: bool)
    requires EnvOk(env) && Read(env, m, n) && 0 <= n < m.nNew
    ensures Read(env, EnterNew(env, m, st, n, usable), n + 1)
  {
    hide RandomOk, TriedOk, NewOk, AddrBack, RefsLoaded, Enter, Link;
    var i := FreshInfo(st);
    var entered, s := Enter(m, n, i), NewSlot(env, m.key, st.address.service, st.source);
    EnterRead(env, m, n, i);
    EnterTriedOk(env, m, n, i);
    Entered(m, n, i);
    if !usable && s !in m.newTab {
      LinkRead(env, entered, s, n, n + 1);
    }
  }

  // What reading never changes.
  ghost predicate SameCounters(m: Man, r: Man) {
    r.nNew == m.nNew && r.nTried == m.nTried && r.idCount == m.idCount
  }

  lemma {:induction false} NewSectionRead(env: Env, m: Man, rest: seq<Token>, n: int, usable: bool)
    requires EnvOk(env) && Read(env, m, n) && 0 <= n <= m.nNew && NewSection(env, m, rest, n, usable).Some?
    ensures var r := NewSection(env, m, rest, n, usable).value.man; Read(env, r, m.nNew) && SameCounters(m, r)
    decreases m.nNew - n
  {
    hide Read;
    if n < m.nNew {
      EnterNewRead(env, m, rest[0].stored, n, usable);
      NewSectionRead(env, EnterNew(env, m, rest[0].stored, n, usable), rest[1..], n + 1, usable);
    }
  }

  lemma {:induction false} WrittenTriedOk(env: Env, m: Man, i: AddrInfo)
    requires TriedOk(env, m) && m.idCount !in m.info && m.idCount >= 0 && i.inTried
    requires TriedSlot(env, m.key, i.address.service) !in m.triedTab
    ensures var s := TriedSlot(env, m.key, i.address.service);
            TriedOk(env, Enter(m, m.idCount, i).(triedTab := m.triedTab[s := m.idCount]))
  {
    var s := TriedSlot(env, m.key, i.address.service);
    var e := Enter(m, m.idCount, i).(triedTab := m.triedTab[s := m.idCount]);
    forall t | t in e.triedTab
      ensures e.triedTab[t] in e.info && e.info[e.triedTab[t]].inTried
      ensures t == TriedSlot(env, e.key, e.info[e.triedTab[t]].address.service)
    {
      if t != s {
        assert m.triedTab[t] in m.info && t == TriedSlot(env, m.key, m.info[m.triedTab[t]].address.service);
      }
    }
    forall n | n in e.info && e.info[n].inTried
      ensures TriedSlot(env, e.key, e.info[n].address.service) in e.triedTab
      ensures e.triedTab[TriedSlot(env, e.key, e.info[n].address.service)] == n
    {
      if n != m.idCount {
        assert n in m.info && m.triedTab[TriedSlot(env, m.key, m.info[n].address.service)] == n;
      }
    }
  }

  // The parts of the state other than the tried table and the counters.
  lemma {:induction false} PartsTransfer(env: Env, m: Man, r: Man)
    requires r == m.(idCount := r.idCount, nTried := r.nTried, triedTab := r.triedTab)
    ensures RandomOk(m) <==> RandomOk(r)
    ensures NewOk(env, m) <==> NewOk(env, r)
    ensures AddrBack(m) <==> AddrBack(r)
    ensures RefsLoaded(m) <==> RefsLoaded(r)
    ensures r.triedTab == m.triedTab ==> (TriedOk(env, m) <==> TriedOk(env, r))
  {
  }

  lemma {:induction false} EnterTriedRead(env: Env, m: Man, st: Stored)
    requires Read(env, m, m.idCount) && 0 <= m.nNew <= m.idCount
    ensures var r := EnterTried(env, m, st);
            && Read(env, r, r.idCount) && r.nNew == m.nNew && r.idCount >= m.idCount
            && r.nTried - r.idCount == m.nTried - m.idCount - 1
  {
    hide RandomOk, TriedOk, NewOk, AddrBack, RefsLoaded, Enter;
    var i := FreshInfo(st).(inTried := true);
    var s, r := TriedSlot(env, m.key, st.address.service), EnterTried(env, m, st);
    if s in m.triedTab {
      PartsTransfer(env, m, r);
    } else {
      var entered := Enter(m, m.idCount, i);
      EnterRead(env, m, m.idCount, i);
      WrittenTriedOk(env, m, i);
      Entered(m, m.idCount, i);
      PartsTransfer(env, entered, r);
      PartsTransfer(env, entered.(triedTab := m.triedTab[s := m.idCount]), r);
    }
  }

  lemma {:induction false} TriedSectionRead(env: Env, m: Man, rest: seq<Token>, left: int)
    requires Read(env, m, m.idCount) && 0 <= m.nNew <= m.idCount && left >= 0 && TriedSection(env, m, rest, left).Some?
    ensures var r := TriedSection(env, m, rest, left).value.man;
            && Read(env, r, r.idCount) && r.nNew == m.nNew && r.idCount >= m.idCount
            && r.nTried - r.idCount == m.nTried - m.idCount - left
    decreases left
  {
    hide Read, EnterTried;
    if left > 0 {
      EnterTriedRead(env, m, rest[0].stored);
      TriedSectionRead(env, EnterTried(env, m, rest[0].stored), rest[1..], left - 1);
    }
  }

  lemma {:induction false} IndexedRead(env: Env, m: Man, index: int, bucket: nat, usable: bool)
    requires Read(env, m, m.idCount) && (usable ==> bucket < NEW_BUCKET_COUNT)
    ensures Read(env, Indexed(env, m, index, bucket, usable), m.idCount)
  {
    hide RandomOk, TriedOk, NewOk, AddrBack;
    if Indexed(env, m, index, bucket, usable) != m {
      var s := Slot(bucket, NewPosition(env, m.key, bucket, m.info[index].address.service));
      LinkRead(env, m, s, index, m.idCount);
    }
  }

  lemma {:induction false} BucketSectionRead(env: Env, m: Man, rest: seq<Token>, bucket: nat, left: int, usable: bool)
    requires Read(env, m, m.idCount) && (usable ==> bucket < NEW_BUCKET_COUNT)
    requires BucketSection(env, m, rest, bucket, left, usable).Some?
    ensures Read(env, BucketSection(env, m, rest, bucket, left, usable).value.man, m.idCount)
    ensures SameCounters(m, BucketSection(env, m, rest, bucket, left, usable).value.man)
    decreases left
  {
    hide Read;
    if left > 0 {
      IndexedRead(env, m, rest[0].n, bucket, usable);
      BucketSectionRead(env, Indexed(env, m, rest[0].n, bucket, usable), rest[1..], bucket, left - 1, usable);
    }
  }

  lemma {:induction false} BucketsSectionRead(env: Env, m: Man, rest: seq<Token>, bucket: nat, nUBuckets: int, usable: bool)
    requires Read(env, m, m.idCount) && (usable ==> nUBuckets == NEW_BUCKET_COUNT)
    requires BucketsSection(env, m, rest, bucket, nUBuckets, usable).Some?
    ensures Read(env, BucketsSection(env, m, rest, bucket, nUBuckets, usable).value, m.idCount)
    ensures SameCounters(m, BucketsSection(env, m, rest, bucket, nUBuckets, usable).value)
    decreases nUBuckets - bucket
  {
    hide Read, BucketSection;
    if bucket < nUBuckets {
      BucketSectionRead(env, m, rest[1..], bucket, rest[0].n, usable);
      var p := BucketSection(env, m, rest[1..], bucket, rest[0].n, usable).value;
      BucketsSectionRead(env, p.man, p.rest, bucket + 1, nUBuckets, usable);
    }
  }

  lemma {:induction false} NothingRead(env: Env, stream: seq<Token>)
    requires HeaderOk(stream)
    ensures Read(env, Start(stream), 0)
  {
  }

  // All that is read from a stream with sane counters.
  lemma {:induction false} LoadRead(env: Env, stream: seq<Token>)
    requires EnvOk(env) && Load(env, stream).Some? && stream[3].n >= 0 && stream[4].n >= 0
    ensures var m := Load(env, stream).value;
            && Read(env, m, m.idCount) && m.nNew == stream[3].n && m.nNew <= m.idCount && m.nTried == m.idCount - m.nNew
  {
    hide Read, NewSection, TriedSection, BucketsSection, UBuckets;
    var start := Start(stream);
    NothingRead(env, stream);
    NewSectionRead(env, start, stream[6..], 0, Usable(stream));
    var p := NewSection(env, start, stream[6..], 0, Usable(stream)).value;
    var counted := p.man.(idCount := p.man.nNew);
    ReadTransfer(env, p.man, counted, p.man.nNew);
    TriedSectionRead(env, counted, p.rest, p.man.nTried);
    var q := TriedSection(env, counted, p.rest, p.man.nTried).value;
    BucketsSectionRead(env, q.man, q.rest, 0, UBuckets(stream), Usable(stream));
  }

  lemma {:induction false} ReadTransfer(env: Env, m: Man, r: Man, count: int)
    requires Read(env, m, count) && r == m.(idCount := r.idCount)
    ensures Read(env, r, count)
  {
    hide RandomOk, TriedOk, NewOk, AddrBack, RefsLoaded;
    PartsTransfer(env, m, r);
  }

  // ---- when the result is consistent ----

  ghost function Unreferenced(m: Man): set<int> {
    set n | n in m.info && !m.info[n].inTried && m.info[n].refCount == 0
  }

  ghost function Addresses(m: Man, ids: set<int>): set<NetAddr> {
    set n | n in ids && n in m.info :: m.info[n].Net()
  }

  // r is m without the entries of gone; the others may have moved within vRandom.
  ghost predicate PrunedTo(m: Man, r: Man, gone: set<int>) {
    && gone <= m.info.Keys && r.info.Keys == m.info.Keys - gone
    && (forall n :: n in r.info ==> r.info[n] == m.info[n].(randomPos := r.info[n].randomPos))
    && r == m.(info := r.info, random := r.random, addr := m.addr - Addresses(m, gone), nNew := m.nNew - |gone|)
  }

  // No entry that stays has the address of another entry that was read.
  ghost predicate KeptApart(m: Man) {
    forall n, k :: n in m.info && k in m.info && n != k && n !in Unreferenced(m) ==> m.info[n].Net() != m.info[k].Net()
  }

  // Dropping an entry takes its address away from an entry that shares it, and of two that
  // stay only one is found by it; apart from that nothing can go wrong.
  lemma {:induction false} PrunedConsistent(env: Env, m: Man, r: Man)
    requires Read(env, m, m.idCount) && 0 <= m.nNew <= m.idCount && m.nTried == m.idCount - m.nNew
    requires PrunedTo(m, r, Unreferenced(m)) && RandomOk(r)
    ensures Inv(env, r) <==> KeptApart(m)
  {
    hide AddrOk, RandomOk, TriedOk, NewOk, RefsOk, CountsOk, RefsLoaded, PrunedTo, KeptApart, AddrBack, Unreferenced;
    PrunedIds(env, m, r);
    PrunedTried(env, m, r);
    PrunedNew(env, m, r);
    PrunedCounts(m, r);
    if AddrOk(r) {
      AddrMeansApart(m, r);
    }
    if KeptApart(m) {
      ApartMeansAddr(m, r);
    }
  }

  lemma {:induction false} PrunedIds(env: Env, m: Man, r: Man)
    requires Read(env, m, m.idCount) && 0 <= m.nNew <= m.idCount && PrunedTo(m, r, Unreferenced(m))
    ensures IdsOk(r)
  {
    hide RandomOk, TriedOk, NewOk, AddrBack, RefsLoaded, Addresses, Unreferenced;
  }

  lemma {:induction false} PrunedTried(env: Env, m: Man, r: Man)
    requires TriedOk(env, m) && PrunedTo(m, r, Unreferenced(m))
    ensures TriedOk(env, r)
  {
    hide Addresses;
    forall s | s in r.triedTab
      ensures r.triedTab[s] in r.info && r.info[r.triedTab[s]].inTried
      ensures s == TriedSlot(env, r.key, r.info[r.triedTab[s]].address.service)
    {
      var n := m.triedTab[s];
      assert n in m.info && m.info[n].inTried && s == TriedSlot(env, m.key, m.info[n].address.service);
      assert n !in Unreferenced(m);
      assert n in r.info;
    }
    forall n | n in r.info && r.info[n].inTried
      ensures TriedSlot(env, r.key, r.info[n].address.service) in r.triedTab
      ensures r.triedTab[TriedSlot(env, r.key, r.info[n].address.service)] == n
    {
      assert n in m.info && m.info[n].inTried;
    }
  }

  lemma {:induction false} PrunedNew(env: Env, m: Man, r: Man)
    requires NewOk(env, m) && RefsLoaded(m) && PrunedTo(m, r, Unreferenced(m))
    ensures NewOk(env, r) && RefsOk(r, {})
  {
    hide Addresses;
    forall s | s in r.newTab
      ensures r.newTab[s] in r.info && s.bucket < NEW_BUCKET_COUNT
      ensures s.pos == NewPosition(env, r.key, s.bucket, r.info[r.newTab[s]].address.service)
    {
      var n := m.newTab[s];
      assert n in m.info && s.pos == NewPosition(env, m.key, s.bucket, m.info[n].address.service);
      assert s in Slots(m.newTab, n);
      assert n !in Unreferenced(m);
    }
    forall n | n in r.info
      ensures r.info[n].refCount == |Slots(r.newTab, n)|
    {
      assert m.info[n].refCount == |Slots(m.newTab, n)|;
    }
  }

  lemma {:induction false} PrunedCounts(m: Man, r: Man)
    requires (forall k :: k in m.info <==> 0 <= k < m.idCount) && RefsLoaded(m)
    requires 0 <= m.nNew <= m.idCount && m.nTried == m.idCount - m.nNew && PrunedTo(m, r, Unreferenced(m))
    ensures CountsOk(r, 0)
  {
    hide Addresses;
    CountsFromRanges(m, m.nNew, m.idCount);
    assert TriedIds(r) == TriedIds(m);
    assert NewIds(r) == NewIds(m) - Unreferenced(m);
    assert Unreferenced(m) <= NewIds(m);
  }

  ghost function Range(lo: int, hi: int): (s: set<int>)
    ensures forall k :: k in s <==> lo <= k < hi
    ensures lo <= hi ==> |s| == hi - lo
    decreases hi - lo
  {
    if lo >= hi then {} else Range(lo, hi - 1) + {hi - 1}
  }

  lemma {:induction false} CountsFromRanges(r: Man, nNew: int, total: int)
    requires 0 <= nNew <= total && r.nNew == nNew && r.nTried == total - nNew
    requires forall k :: k in r.info <==> 0 <= k < total
    requires forall k :: k in r.info ==> (k < nNew <==> !r.info[k].inTried)
    ensures CountsOk(r, 0)
  {
    forall k
      ensures k in TriedIds(r) <==> k in Range(nNew, total)
      ensures k in NewIds(r) <==> k in Range(0, nNew)
    {
    }
    assert TriedIds(r) == Range(nNew, total) && NewIds(r) == Range(0, nNew);
  }

  lemma {:induction false} AddrMeansApart(m: Man, r: Man)
    requires PrunedTo(m, r, Unreferenced(m)) && AddrOk(r)
    ensures KeptApart(m)
  {
    hide Unreferenced;
    forall n, k | n in m.info && k in m.info && n != k && n !in Unreferenced(m)
      ensures m.info[n].Net() != m.info[k].Net()
    {
      assert n in r.info && r.addr[r.info[n].Net()] == n;
      if k in r.info {
        assert r.addr[r.info[k].Net()] == k;
      } else {
        assert m.info[k].Net() in Addresses(m, Unreferenced(m));
      }
    }
  }

  lemma {:induction false} ApartMeansAddr(m: Man, r: Man)
    requires PrunedTo(m, r, Unreferenced(m)) && AddrBack(m) && KeptApart(m)
    ensures AddrOk(r)
  {
    hide Unreferenced;
    forall n | n in r.info
      ensures r.info[n].Net() in r.addr && r.addr[r.info[n].Net()] == n
    {
      var a := m.info[n].Net();
      assert m.addr[a] in m.info && m.info[m.addr[a]].Net() == a;
      forall k | k in Unreferenced(m)
        ensures m.info[k].Net() != a
      {
      }
    }
    forall a | a in r.addr
      ensures r.addr[a] in r.info && r.info[r.addr[a]].Net() == a
    {
      var n := m.addr[a];
      assert n in m.info && m.info[n].Net() == a;
      AddressOf(m, Unreferenced(m), n);
    }
  }

  lemma {:induction false} AddressOf(m: Man, ids: set<int>, n: int)
    requires n in m.info
    ensures n in ids ==> m.info[n].Net() in Addresses(m, ids)
  {
  }

  // ---- negative counters ----

  lemma {:induction false} CountersStay(env: Env, stream: seq<Token>)
    requires Load(env, stream).Some?
    ensures Load(env, stream).value.nNew == stream[3].n
    ensures stream[4].n <= 0 ==> Load(env, stream).value.nTried == stream[4].n
  {
    hide NewSection, TriedSection, BucketsSection, UBuckets;
    NewSectionCounters(env, Start(stream), stream[6..], 0, Usable(stream));
    var p := NewSection(env, Start(stream), stream[6..], 0, Usable(stream)).value;
    var counted := p.man.(idCount := p.man.nNew);
    TriedSectionCounters(env, counted, p.rest, p.man.nTried);
    var q := TriedSection(env, counted, p.rest, p.man.nTried).value;
    BucketsSectionCounters(env, q.man, q.rest, 0, UBuckets(stream), Usable(stream));
  }

  lemma {:induction false} NewSectionCounters(env: Env, m: Man, rest: seq<Token>, n: int, usable: bool)
    requires NewSection(env, m, rest, n, usable).Some?
    ensures SameCounters(m, NewSection(env, m, rest, n, usable).value.man)
    decreases m.nNew - n
  {
    if n < m.nNew {
      NewSectionCounters(env, EnterNew(env, m, rest[0].stored, n, usable), rest[1..], n + 1, usable);
    }
  }

  lemma {:induction false} TriedSectionCounters(env: Env, m: Man, rest: seq<Token>, left: int)
    requires TriedSection(env, m, rest, left).Some?
    ensures TriedSection(env, m, rest, left).value.man.nNew == m.nNew
    ensures left <= 0 ==> TriedSection(env, m, rest, left).value.man.nTried == m.nTried
    decreases left
  {
    if left > 0 {
      TriedSectionCounters(env, EnterTried(env, m, rest[0].stored), rest[1..], left - 1);
    }
  }

  lemma {:induction false} BucketSectionCounters(env: Env, m: Man, rest: seq<Token>, bucket: nat, left: int, usable: bool)
    requires BucketSection(env, m, rest, bucket, left, usable).Some?
    ensures SameCounters(m, BucketSection(env, m, rest, bucket, left, usable).value.man)
    decreases left
  {
    if left > 0 {
      BucketSectionCounters(env, Indexed(env, m, rest[0].n, bucket, usable), rest[1..], bucket, left - 1, usable);
    }
  }

  lemma {:induction false} BucketsSectionCounters(env: Env, m: Man, rest: seq<Token>, bucket: nat, nUBuckets: int, usable: bool)
    requires BucketsSection(env, m, rest, bucket, nUBuckets, usable).Some?
    ensures SameCounters(m, BucketsSection(env, m, rest, bucket, nUBuckets, usable).value)
    decreases nUBuckets - bucket
  {
    hide BucketSection;
    if bucket < nUBuckets {
      BucketSectionCounters(env, m, rest[1..], bucket, rest[0].n, usable);
      var p := BucketSection(env, m, rest[1..], bucket, rest[0].n, usable).value;
      BucketsSectionCounters(env, p.man, p.rest, bucket + 1, nUBuckets, usable);
    }
  }

  // What is loaded is consistent if and only if the counters are not negative and no entry
  // that stays shares its address with another.
  lemma {:induction false} LoadConsistent(env: Env, stream: seq<Token>, r: Man)
    requires EnvOk(env) && Load(env, stream).Some?
    requires var m := Load(env, stream).value; PrunedTo(m, r, Unreferenced(m)) && RandomOk(r)
    ensures Inv(env, r) <==> stream[3].n >= 0 && stream[4].n >= 0 && KeptApart(Load(env, stream).value)
  {
    hide Load, PrunedTo, RandomOk, KeptApart, Read, Between, Unreferenced;
    assert HeaderOk(stream) by { LoadHeader(env, stream); }
    var m := Load(env, stream).value;
    if stream[3].n >= 0 && stream[4].n >= 0 {
      LoadRead(env, stream);
      PrunedConsistent(env, m, r);
    } else {
      CountersStay(env, stream);
      NegativeCounter(env, m, r);
    }
  }

  lemma {:induction false} LoadHeader(env: Env, stream: seq<Token>)
    requires Load(env, stream).Some?
    ensures HeaderOk(stream)
  {
  }

  lemma {:induction false} NegativeCounter(env: Env, m: Man, r: Man)
    requires PrunedTo(m, r, Unreferenced(m)) && (m.nNew < 0 || m.nTried < 0)
    ensures !Inv(env, r)
  {
    hide AddrOk, RandomOk, TriedOk, NewOk, RefsOk;
    assert r.nNew <= m.nNew && r.nTried == m.nTried;
  }

  // ---- streams without repeated addresses ----

  ghost predicate DistinctAddresses(tokens: seq<Token>) {
    forall i, j :: 0 <= i < j < |tokens| && tokens[i].Info? && tokens[j].Info? ==>
      tokens[i].stored.address.service.addr != tokens[j].stored.address.service.addr
  }

  // All addresses are different: those that were read and those still to come.
  ghost predicate Apart(m: Man, rest: seq<Token>) {
    && (forall n, k :: n in m.info && k in m.info && n != k ==> m.info[n].Net() != m.info[k].Net())
    && (forall n, i :: n in m.info && 0 <= i < |rest| && rest[i].Info? ==> m.info[n].Net() != rest[i].stored.address.service.addr)
    && DistinctAddresses(rest)
  }

  lemma {:induction false} EnterApart(m: Man, rest: seq<Token>, id: int, i: AddrInfo, r: Man)
    requires Apart(m, rest) && |rest| > 0 && rest[0].Info? && i.Net() == rest[0].stored.address.service.addr
    requires r.info.Keys == m.info.Keys + {id} && r.info[id].Net() == i.Net()
    requires forall n :: n in m.info && n != id ==> r.info[n] == m.info[n]
    ensures Apart(r, rest[1..])
  {
    forall j, k | 0 <= j < k < |rest| - 1 && rest[1..][j].Info? && rest[1..][k].Info?
      ensures rest[1..][j].stored.address.service.addr != rest[1..][k].stored.address.service.addr
    {
      assert rest[j + 1].Info? && rest[k + 1].Info?;
    }
    forall n, j | n in r.info && 0 <= j < |rest| - 1 && rest[1..][j].Info?
      ensures r.info[n].Net() != rest[1..][j].stored.address.service.addr
    {
      assert rest[j + 1].Info? && rest[0].Info?;
    }
  }

  lemma {:induction false} SkipApart(m: Man, rest: seq<Token>)
    requires Apart(m, rest) && |rest| > 0
    ensures Apart(m, rest[1..])
  {
    forall j, k | 0 <= j < k < |rest| - 1 && rest[1..][j].Info? && rest[1..][k].Info?
      ensures rest[1..][j].stored.address.service.addr != rest[1..][k].stored.address.service.addr
    {
      assert rest[j + 1].Info? && rest[k + 1].Info?;
    }
    forall n, j | n in m.info && 0 <= j < |rest| - 1 && rest[1..][j].Info?
      ensures m.info[n].Net() != rest[1..][j].stored.address.service.addr
    {
      assert rest[j + 1].Info?;
    }
  }

  lemma {:induction false} SameApart(m: Man, r: Man, rest: seq<Token>)
    requires Apart(m, rest) && r.info.Keys == m.info.Keys
    requires forall n :: n in m.info ==> r.info[n].Net() == m.info[n].Net()
    ensures Apart(r, rest)
  {
  }

  lemma {:induction false} NewSectionApart(env: Env, m: Man, rest: seq<Token>, n: int, usable: bool)
    requires Apart(m, rest) && NewSection(env, m, rest, n, usable).Some?
    ensures var p := NewSection(env, m, rest, n, usable).value; Apart(p.man, p.rest)
    decreases m.nNew - n
  {
    hide Apart;
    if n < m.nNew {
      var i := FreshInfo(rest[0].stored);
      var r := EnterNew(env, m, rest[0].stored, n, usable);
      EnterApart(m, rest, n, i, r);
      NewSectionApart(env, r, rest[1..], n + 1, usable);
    }
  }

  lemma {:induction false} TriedSectionApart(env: Env, m: Man, rest: seq<Token>, left: int)
    requires Apart(m, rest) && TriedSection(env, m, rest, left).Some?
    ensures var p := TriedSection(env, m, rest, left).value; Apart(p.man, p.rest)
    decreases left
  {
    hide Apart;
    if left > 0 {
      var i, r := FreshInfo(rest[0].stored), EnterTried(env, m, rest[0].stored);
      if TriedSlot(env, m.key, rest[0].stored.address.service) in m.triedTab {
        SkipApart(m, rest);
        SameApart(m, r, rest[1..]);
      } else {
        EnterApart(m, rest, m.idCount, i, r);
      }
      TriedSectionApart(env, r, rest[1..], left - 1);
    }
  }

  lemma {:induction false} BucketSectionApart(env: Env, m: Man, rest: seq<Token>, bucket: nat, left: int, usable: bool)
    requires Apart(m, []) && BucketSection(env, m, rest, bucket, left, usable).Some?
    ensures Apart(BucketSection(env, m, rest, bucket, left, usable).value.man, [])
    decreases left
  {
    hide Apart;
    if left > 0 {
      var r := Indexed(env, m, rest[0].n, bucket, usable);
      SameApart(m, r, []);
      BucketSectionApart(env, r, rest[1..], bucket, left - 1, usable);
    }
  }

  lemma {:induction false} BucketsSectionApart(env: Env, m: Man, rest: seq<Token>, bucket: nat, nUBuckets: int, usable: bool)
    requires Apart(m, []) && BucketsSection(env, m, rest, bucket, nUBuckets, usable).Some?
    ensures Apart(BucketsSection(env, m, rest, bucket, nUBuckets, usable).value, [])
    decreases nUBuckets - bucket
  {
    hide Apart, BucketSection;
    if bucket < nUBuckets {
      BucketSectionApart(env, m, rest[1..], bucket, rest[0].n, usable);
      var p := BucketSection(env, m, rest[1..], bucket, rest[0].n, usable).value;
      BucketsSectionApart(env, p.man, p.rest, bucket + 1, nUBuckets, usable);
    }
  }

  lemma {:induction false} LoadApart(env: Env, stream: seq<Token>)
    requires Load(env, stream).Some? && DistinctAddresses(stream)
    ensures KeptApart(Load(env, stream).value)
  {
    hide NewSection, TriedSection, BucketsSection, UBuckets;
    StartApart(stream);
    hide Apart, DistinctAddresses;
    NewSectionApart(env, Start(stream), stream[6..], 0, Usable(stream));
    var p := NewSection(env, Start(stream), stream[6..], 0, Usable(stream)).value;
    var counted := p.man.(idCount := p.man.nNew);
    SameApart(p.man, counted, p.rest);
    TriedSectionApart(env, counted, p.rest, p.man.nTried);
    var q := TriedSection(env, counted, p.rest, p.man.nTried).value;
    NothingLeftApart(q.man, q.rest);
    BucketsSectionApart(env, q.man, q.rest, 0, UBuckets(stream), Usable(stream));
    ApartKept(Load(env, stream).value);
  }

  lemma {:induction false} StartApart(stream: seq<Token>)
    requires HeaderOk(stream) && DistinctAddresses(stream)
    ensures Apart(Start(stream), stream[6..])
  {
    forall i, j | 0 <= i < j < |stream| - 6 && stream[6..][i].Info? && stream[6..][j].Info?
      ensures stream[6..][i].stored.address.service.addr != stream[6..][j].stored.address.service.addr
    {
      assert stream[i + 6].Info? && stream[j + 6].Info?;
    }
  }

  lemma {:induction false} NothingLeftApart(m: Man, rest: seq<Token>)
    requires Apart(m, rest)
    ensures Apart(m, [])
  {
  }

  lemma {:induction false} ApartKept(m: Man)
    requires Apart(m, [])
    ensures KeptApart(m)
  {
  }

  // Old format, no tried entries, no positions, and the same new entry twice.
  function TwiceStored(key: nat, st: Stored): seq<Token> {
    [Byte(0), Byte(KEY_SIZE), Key(key), Int(2), Int(0), Int(0), Info(st), Info(st)]
  }

  // The first of the two takes the slot; dropping the second takes the address from it.
  lemma {:induction false} RepeatedAddress(env: Env, key: nat, st: Stored, r: Man)
    requires EnvOk(env)
    ensures Load(env, TwiceStored(key, st)).Some?
    ensures var m := Load(env, TwiceStored(key, st)).value; PrunedTo(m, r, Unreferenced(m)) && RandomOk(r) ==> !Inv(env, r)
  {
    hide PrunedTo, Unreferenced, RandomOk, Between, KeptApart;
    var stream := TwiceStored(key, st);
    TwiceLoaded(env, key, st);
    var m := Load(env, stream).value;
    if PrunedTo(m, r, Unreferenced(m)) && RandomOk(r) {
      LoadConsistent(env, stream, r);
    }
  }

  lemma {:induction false} TwiceLoaded(env: Env, key: nat, st: Stored)
    ensures Load(env, TwiceStored(key, st)).Some? && !KeptApart(Load(env, TwiceStored(key, st)).value)
  {
    var stream := TwiceStored(key, st);
    var start, rest := Start(stream), stream[6..];
    var one := EnterNew(env, start, st, 0, false);
    var two := EnterNew(env, one, st, 1, false);
    assert rest == [Info(st), Info(st)] && rest[1..] == [Info(st)] && rest[2..] == rest[1..][1..] == [];
    assert NewSection(env, two, [], 2, false) == Some(Progress(two, []));
    assert NewSection(env, one, rest[1..], 1, false) == Some(Progress(two, []));
    assert NewSection(env, start, rest, 0, false) == Some(Progress(two, []));
    var m := two.(idCount := two.nNew);
    assert Load(env, stream) == Some(m);
    assert 0 in m.info && 1 in m.info && m.info[0].refCount == 1 && m.info[0].Net() == m.info[1].Net();
    assert 0 !in Unreferenced(m);
  }
}
