// The address manager as the object it is (src/addrman.cpp): maps, vRandom, bucket
// arrays and counters updated in place. Each method is proved to do what its
// function in AddrManState says, and so keeps the invariant; no assert can fail.

module AddrMan {
  import opened Basics
  import opened AddrManState
  import opened AddrManRuns

  const FREE := -1

  function AllSlots(buckets: nat, size: nat): set<Slot> {
    set b: nat, p: nat | b < buckets && p < size :: Slot(b, p)
  }

  // The occupied slots of a bucket array.
  function TableOf(a: array2<int>): Table
    reads a
  {
    map s | s in AllSlots(a.Length0, a.Length1) && a[s.bucket, s.pos] != FREE :: a[s.bucket, s.pos]
  }

  class CAddrMan {
    const env: Env

    var nIdCount: int
    var mapInfo: map<int, AddrInfo>
    var mapAddr: map<NetAddr, int>
    var vRandom: seq<int>
    var nTried: int
    var nNew: int
    var nLastGood: int
    var nKey: nat
    const vvTried: array2<int>
    const vvNew: array2<int>

    ghost predicate Valid()
      reads this, vvTried, vvNew
    {
      && EnvOk(env) && vvTried != vvNew
      && vvTried.Length0 == TRIED_BUCKET_COUNT && vvTried.Length1 == BUCKET_SIZE
      && vvNew.Length0 == NEW_BUCKET_COUNT && vvNew.Length1 == BUCKET_SIZE
    }

    ghost function State(): Man
      reads this, vvTried, vvNew
    {
      Man(nKey, nIdCount, mapInfo, mapAddr, vRandom, nTried, TableOf(vvTried), nNew, TableOf(vvNew), nLastGood)
    }

    constructor (envIn: Env, key: nat)
      requires EnvOk(envIn)
      ensures Valid() && env == envIn && fresh(vvTried) && fresh(vvNew)
      ensures State() == Empty(key) && Inv(env, State())
    {
      env := envIn;
      nIdCount, mapInfo, mapAddr, vRandom := 0, map[], map[], [];
      nTried, nNew, nLastGood, nKey := 0, 0, 1, key;
      vvTried := new int[TRIED_BUCKET_COUNT, BUCKET_SIZE]((i, j) => FREE);
      vvNew := new int[NEW_BUCKET_COUNT, BUCKET_SIZE]((i, j) => FREE);
      new;
      EmptyInv(env, key);
    }

    method SetNew(bucket: nat, pos: nat, id: int)
      requires Valid() && bucket < NEW_BUCKET_COUNT && pos < BUCKET_SIZE
      modifies vvNew
      ensures Valid() && State() == old(State()).(newTab := Written(old(State()).newTab, Slot(bucket, pos), id))
    {
      vvNew[bucket, pos] := id;
      assert TableOf(vvNew) == Written(old(TableOf(vvNew)), Slot(bucket, pos), id);
    }

    method SetTried(bucket: nat, pos: nat, id: int)
      requires Valid() && bucket < TRIED_BUCKET_COUNT && pos < BUCKET_SIZE
      modifies vvTried
      ensures Valid() && State() == old(State()).(triedTab := Written(old(State()).triedTab, Slot(bucket, pos), id))
    {
      vvTried[bucket, pos] := id;
      assert TableOf(vvTried) == Written(old(TableOf(vvTried)), Slot(bucket, pos), id);
    }

    method SwapRandom_(i: nat, j: nat)
      requires Valid() && RandomOk(State())
      requires i < |vRandom| && j < |vRandom|
      modifies this
      ensures Valid() && State() == SwapRandom(old(State()), i, j)
    {
      if i == j {
        return;
      }
      var id1, id2 := vRandom[i], vRandom[j];
      assert id1 in mapInfo && id2 in mapInfo;
      mapInfo := mapInfo[id1 := mapInfo[id1].(randomPos := j)];
      mapInfo := mapInfo[id2 := mapInfo[id2].(randomPos := i)];
      vRandom := vRandom[i := id2];
      vRandom := vRandom[j := id1];
    }

    method Delete_(id: int)
      requires Valid() && RandomOk(State())
      requires id in mapInfo && !mapInfo[id].inTried && mapInfo[id].refCount == 0
      modifies this
      ensures Valid() && State() == Delete(old(State()), id)
    {
      hide RandomOk, SwapRandom, DropLast;
      SwapToLast(State(), id);
      SwapRandom_(mapInfo[id].randomPos, |vRandom| - 1);
      DropLast_(id);
    }

    method DropLast_(id: int)
      requires Valid() && id in mapInfo && |vRandom| > 0
      modifies this
      ensures Valid() && State() == DropLast(old(State()), id)
    {
      vRandom := vRandom[..|vRandom| - 1];
      mapAddr := mapAddr - {mapInfo[id].Net()};
      mapInfo := mapInfo - {id};
      nNew := nNew - 1;
    }

    // The invariant is kept: the slot's entry is dropped with its last reference.
    method ClearNew_(bucket: nat, pos: nat, ghost loose: set<int>, ghost uncounted: int)
      requires Valid() && Between(env, State(), loose, uncounted)
      requires bucket < NEW_BUCKET_COUNT && pos < BUCKET_SIZE
      modifies this, vvNew
      ensures Valid() && Between(env, State(), loose, uncounted)
      ensures State() == ClearNew(old(State()), Slot(bucket, pos))
      ensures vvNew[bucket, pos] == FREE
    {
      hide AddrOk, CountsOk, IdsOk, TriedOk;
      ghost var before, slot := State(), Slot(bucket, pos);
      SlotIn(vvNew, bucket, pos);
      ClearNewKeeps(env, before, slot, loose, uncounted);
      if vvNew[bucket, pos] != FREE {
        var id := vvNew[bucket, pos];
        ListedNotLoose(env, before, slot, loose);
        UnlinkKeeps(env, before, slot, loose, uncounted);
        assert mapInfo[id].refCount > 0;
        Unlink_(bucket, pos);
        if mapInfo[id].refCount == 0 {
          assert !mapInfo[id].inTried;
          Delete_(id);
        }
      }
      SlotIn(vvNew, bucket, pos);
    }

    method Unlink_(bucket: nat, pos: nat)
      requires Valid() && bucket < NEW_BUCKET_COUNT && pos < BUCKET_SIZE
      requires vvNew[bucket, pos] != FREE && vvNew[bucket, pos] in mapInfo
      modifies this, vvNew
      ensures Valid() && Slot(bucket, pos) in old(State()).newTab
      ensures old(State()).newTab[Slot(bucket, pos)] == old(vvNew[bucket, pos])
      ensures State() == Unlink(old(State()), Slot(bucket, pos))
    {
      var id := vvNew[bucket, pos];
      SlotIn(vvNew, bucket, pos);
      mapInfo := mapInfo[id := mapInfo[id].(refCount := mapInfo[id].refCount - 1)];
      SetNew(bucket, pos, FREE);
    }

    // The loop that takes an entry out of every new bucket it is in.
    method Detach_(id: int)
      requires Valid() && NewOk(env, State()) && id in mapInfo && id != FREE
      modifies this, vvNew
      ensures Valid() && State() == Detach(old(State()), id)
      ensures mapInfo[id].refCount == 0
    {
      hide NewOk;
      ghost var before := State();
      PartlyEnds(env, before, id);
      var bucket := 0;
      while bucket < NEW_BUCKET_COUNT
        invariant 0 <= bucket <= NEW_BUCKET_COUNT
        invariant Valid() && State() == PartlyDetached(before, id, bucket)
      {
        PartlyNext(env, before, id, bucket);
        DetachFrom(id, bucket);
        bucket := bucket + 1;
      }
    }

    method DetachFrom(id: int, bucket: nat)
      requires Valid() && id in mapInfo && id != FREE && bucket < NEW_BUCKET_COUNT
      modifies this, vvNew
      ensures Valid()
      ensures State() == DetachedFrom(old(State()), id, Slot(bucket, NewPosition(env, old(nKey), bucket, old(mapInfo)[id].address.service)))
    {
      var pos := env.position(nKey, true, bucket, mapInfo[id].address.service);
      SlotIn(vvNew, bucket, pos);
      if vvNew[bucket, pos] == id {
        SetNew(bucket, pos, FREE);
        mapInfo := mapInfo[id := mapInfo[id].(refCount := mapInfo[id].refCount - 1)];
      }
    }

    method MakeTried_(id: int)
      requires Valid() && Inv(env, State()) && id in mapInfo && !mapInfo[id].inTried
      modifies this, vvNew, vvTried
      ensures Valid() && State() == MakeTried(env, old(State()), id)
    {
      hide AddrOk, CountsOk, NewOk, RandomOk, TriedOk, RefsOk, IdsOk, Slots, Promote, Evict;
      ghost var m := State();
      IdNotFree(env, m, id);
      Detach_(id);
      nNew := nNew - 1;
      assert mapInfo[id].refCount == 0;
      ghost var out := State();
      DetachedKeeps(env, m, id);
      var bucket := env.triedBucket(nKey, mapInfo[id].address.service);
      var pos := env.position(nKey, false, bucket, mapInfo[id].address.service);
      SlotIn(vvTried, bucket, pos);
      if vvTried[bucket, pos] != FREE {
        Evict_(bucket, pos, {id}, 1);
      }
      assert vvTried[bucket, pos] == FREE;
      RoomKeeps(env, out, id, Slot(bucket, pos));
      Promote_(bucket, pos, id);
    }

    method Promote_(bucket: nat, pos: nat, id: int)
      requires Valid() && bucket < TRIED_BUCKET_COUNT && pos < BUCKET_SIZE && id in mapInfo && id != FREE
      modifies this, vvTried
      ensures Valid() && State() == Promote(old(State()), Slot(bucket, pos), id)
    {
      SetTried(bucket, pos, id);
      nTried := nTried + 1;
      mapInfo := mapInfo[id := mapInfo[id].(inTried := true)];
    }

    method Evict_(bucket: nat, pos: nat, ghost loose: set<int>, ghost uncounted: int)
      requires Valid() && Between(env, State(), loose, uncounted)
      requires bucket < TRIED_BUCKET_COUNT && pos < BUCKET_SIZE && vvTried[bucket, pos] != FREE
      modifies this, vvNew, vvTried
      ensures Valid() && Slot(bucket, pos) in old(State()).triedTab
      ensures State() == Evict(env, old(State()), Slot(bucket, pos), loose, uncounted)
      ensures vvTried[bucket, pos] == FREE
    {
      hide AddrOk, CountsOk, IdsOk, NewOk, RandomOk, RefsOk;
      ghost var m, slot := State(), Slot(bucket, pos);
      SlotIn(vvTried, bucket, pos);
      var id := vvTried[bucket, pos];
      IdInTried(env, m, slot);
      RetireKeeps(env, m, slot, loose, uncounted);
      mapInfo := mapInfo[id := mapInfo[id].(inTried := false)];
      SetTried(bucket, pos, FREE);
      nTried := nTried - 1;
      assert State() == Retire(m, slot);
      var newBucket := env.newBucket(nKey, mapInfo[id].address.service, mapInfo[id].source);
      var newPos := env.position(nKey, true, newBucket, mapInfo[id].address.service);
      ClearNew_(newBucket, newPos, loose + {id}, uncounted + 1);
      assert vvNew[newBucket, newPos] == FREE;
      LooseKnown(env, State(), loose + {id}, uncounted + 1, id);
      mapInfo := mapInfo[id := mapInfo[id].(refCount := 1)];
      SetNew(newBucket, newPos, id);
      nNew := nNew + 1;
    }

    // `random` stands for RandomInt(ADDRMAN_NEW_BUCKET_COUNT). The search for a new
    // bucket always succeeds, so its failing exit is not taken.
    method Good_(s: Service, time: int, random: nat)
      requires Valid() && Inv(env, State()) && random < NEW_BUCKET_COUNT
      modifies this, vvNew, vvTried
      ensures Valid() && Inv(env, State())
      ensures State() == Good(env, old(State()), s, time)
    {
      hide Between, MakeTried;
      ghost var m := State();
      GoodKeeps(env, m, s, time);
      nLastGood := time;
      if s.addr !in mapAddr || mapAddr[s.addr] !in mapInfo {
        return;
      }
      var id := mapAddr[s.addr];
      if mapInfo[id].address.service != s {
        return;
      }
      var i := mapInfo[id].(lastSuccess := time, lastTry := time, attempts := 0);
      StatsKeep(env, m, id, i, time);
      mapInfo := mapInfo[id := i];
      if i.inTried {
        return;
      }
      var bucket := FindBucket(id, random);
      assert bucket != -1;
      MakeTried_(id);
    }

    method FindBucket(id: int, random: nat) returns (bucket: int)
      requires Valid() && Inv(env, State()) && random < NEW_BUCKET_COUNT
      requires id in mapInfo && !mapInfo[id].inTried
      ensures 0 <= bucket < NEW_BUCKET_COUNT
      ensures vvNew[bucket, env.position(nKey, true, bucket, mapInfo[id].address.service)] == id
    {
      hide Between;
      var service := mapInfo[id].address.service;
      ghost var home := HomeBucket(env, State(), id);
      SlotIn(vvNew, home, env.position(nKey, true, home, service));
      ghost var round := if home >= random then home - random else home + NEW_BUCKET_COUNT - random;
      assert home == (round + random) % NEW_BUCKET_COUNT;
      bucket := -1;
      var n := 0;
      while n < NEW_BUCKET_COUNT
        invariant 0 <= n <= round && bucket == -1
      {
        var b := (n + random) % NEW_BUCKET_COUNT;
        var pos := env.position(nKey, true, b, service);
        if vvNew[b, pos] == id {
          bucket := b;
          return;
        }
        n := n + 1;
      }
      assert false;
    }

    method Attempt_(s: Service, countFailure: bool, time: int)
      requires Valid() && Inv(env, State())
      modifies this
      ensures Valid() && Inv(env, State())
      ensures State() == Attempt(old(State()), s, countFailure, time)
    {
      hide Between;
      MinorKeeps(env, State(), s, countFailure, time, {});
      if s.addr !in mapAddr || mapAddr[s.addr] !in mapInfo {
        return;
      }
      var id := mapAddr[s.addr];
      if mapInfo[id].address.service != s {
        return;
      }
      mapInfo := mapInfo[id := mapInfo[id].(lastTry := time)];
      if countFailure && mapInfo[id].lastCountAttempt < nLastGood {
        mapInfo := mapInfo[id := mapInfo[id].(lastCountAttempt := time, attempts := mapInfo[id].attempts + 1)];
      }
      assert mapInfo == old(mapInfo)[id := mapInfo[id]];
    }

    method Connected_(s: Service, time: int)
      requires Valid() && Inv(env, State())
      modifies this
      ensures Valid() && Inv(env, State()) && State() == Connected(old(State()), s, time)
    {
      hide Between;
      MinorKeeps(env, State(), s, false, time, {});
      if s.addr in mapAddr && mapAddr[s.addr] in mapInfo {
        var i := mapInfo[mapAddr[s.addr]];
        if i.address.service == s && time - i.address.time > 20 * 60 {
          mapInfo := mapInfo[mapAddr[s.addr] := i.(address := i.address.(time := time))];
        }
      }
    }

    method SetServices_(s: Service, services: set<nat>)
      requires Valid() && Inv(env, State())
      modifies this
      ensures Valid() && Inv(env, State()) && State() == SetServices(old(State()), s, services)
    {
      hide Between;
      MinorKeeps(env, State(), s, false, 0, services);
      if s.addr in mapAddr && mapAddr[s.addr] in mapInfo {
        var i := mapInfo[mapAddr[s.addr]];
        if i.address.service == s {
          mapInfo := mapInfo[mapAddr[s.addr] := i.(address := i.address.(services := services))];
        }
      }
    }

    // `now` stands for GetAdjustedTime() and `random` for the draw of the
    // stochastic test.
    method Add_(address: Address, source: NetAddr, timePenalty: int, now: int, random: nat) returns (isNew: bool)
      requires Valid() && Inv(env, State())
      modifies this, vvNew
      ensures Valid() && Inv(env, State())
      ensures (State(), isNew) == Add(env, old(State()), address, source, timePenalty, now, random)
      ensures !env.routable(address.service.addr) ==> State() == old(State()) && !isNew
      ensures env.routable(address.service.addr) ==>
        if address.service.addr !in old(mapAddr) then isNew && Learns(env, old(State()), State(), address, source, timePenalty, now)
        else !isNew && old(mapAddr)[address.service.addr] in old(mapInfo)
             && Refreshes(env, old(State()), State(), address, source, timePenalty, now, random)
    {
      hide Between, Place, Placeable, Refresh, TriesAgain, Learned, Learns, Refreshes;
      AddOutcome(env, State(), address, source, timePenalty, now, random);
      AddKeeps(env, State(), address, source, timePenalty, now, random);
      isNew := false;
      if env.routable(address.service.addr) {
        var penalty := if address.service.addr == source then 0 else timePenalty;
        var a, id := address.service.addr, nIdCount;
        if a in mapAddr && mapAddr[a] in mapInfo {
          id := mapAddr[a];
          var again := Refresh_(id, address, penalty, now, random);
          if again {
            Place_(id, source, now);
          }
        } else {
          Learn_(address, source, penalty);
          isNew := true;
          Place_(id, source, now);
        }
      }
    }

    // An address that is already known: whether it gets another chance.
    method Refresh_(id: int, address: Address, penalty: int, now: int, random: nat) returns (again: bool)
      requires Valid() && Inv(env, State()) && id in mapInfo
      modifies this
      ensures Valid() && State() == SetInfo(old(State()), id, Refresh(old(mapInfo)[id], address, penalty, now))
      ensures again <==> TriesAgain(Refresh(old(mapInfo)[id], address, penalty, now), address, random)
      ensures again ==> Placeable(env, State(), id)
    {
      hide Between;
      var i := mapInfo[id];
      var online := now - address.time < 24 * 60 * 60;
      var interval := if online then 60 * 60 else 24 * 60 * 60;
      if address.time != 0 && (i.address.time == 0 || i.address.time < address.time - interval - penalty) {
        i := i.(address := i.address.(time := Max0(address.time - penalty)));
      }
      i := i.(address := i.address.(services := i.address.services + address.services));
      assert i == Refresh(mapInfo[id], address, penalty, now);
      StatsKeep(env, State(), id, i, nLastGood);
      mapInfo := mapInfo[id := i];
      KnownPlaceable(env, State(), id);
      again := false;
      if address.time == 0 || (i.address.time != 0 && address.time <= i.address.time) {
        return;
      }
      if i.inTried || i.refCount == NEW_BUCKETS_PER_ADDRESS {
        return;
      }
      var factor := StochasticFactor(i.refCount);
      again := !(factor > 1 && random % factor != 0);
    }

    method Learn_(address: Address, source: NetAddr, penalty: int)
      requires Valid() && Inv(env, State()) && Find(State(), address.service.addr).None?
      modifies this
      ensures Valid() && State() == Learned(old(State()), address, source, penalty)
      ensures Placeable(env, State(), old(nIdCount))
    {
      hide Between;
      CreateKeeps(env, State(), address, source, penalty);
      var id := nIdCount;
      Create_(address, source);
      mapInfo := mapInfo[id := mapInfo[id].(address := mapInfo[id].address.(time := Max0(mapInfo[id].address.time - penalty)))];
      nNew := nNew + 1;
      assert mapInfo == Learned(old(State()), address, source, penalty).info;
    }

    method Create_(address: Address, source: NetAddr)
      modifies this
      ensures State() == Create(old(State()), address, source)
    {
      var id := nIdCount;
      nIdCount := nIdCount + 1;
      mapInfo := mapInfo[id := AddrInfo(address, source, 0, 0, 0, 0, 0, false, -1)];
      mapAddr := mapAddr[address.service.addr := id];
      mapInfo := mapInfo[id := mapInfo[id].(randomPos := |vRandom|)];
      vRandom := vRandom + [id];
    }

    method Place_(id: int, source: NetAddr, now: int)
      requires Valid() && Placeable(env, State(), id)
      modifies this, vvNew
      ensures Valid() && State() == Place(env, old(State()), id, source, now)
    {
      hide AddrOk, CountsOk, NewOk, TriedOk, IdsOk, RefsOk, ClearNew, Delete, Link;
      ghost var m := State();
      ghost var loose := if mapInfo[id].refCount == 0 then {id} else {};
      var bucket := env.newBucket(nKey, mapInfo[id].address.service, source);
      var pos := env.position(nKey, true, bucket, mapInfo[id].address.service);
      SlotIn(vvNew, bucket, pos);
      PlaceableNotFree(env, m, id);
      if vvNew[bucket, pos] != id {
        ClearNewKeepsEntry(env, m, id, Slot(bucket, pos));
        var insert := vvNew[bucket, pos] == FREE;
        if !insert {
          var existing := mapInfo[vvNew[bucket, pos]];
          if existing.IsTerrible(now) || (existing.refCount > 1 && mapInfo[id].refCount == 0) {
            insert := true;
          }
        }
        assert insert == Overwrites(m, Slot(bucket, pos), id, now);
        if insert {
          ClearNew_(bucket, pos, loose, 0);
          Link_(bucket, pos, id);
        } else if mapInfo[id].refCount == 0 {
          Delete_(id);
        }
      }
    }

    method Link_(bucket: nat, pos: nat, id: int)
      requires Valid() && bucket < NEW_BUCKET_COUNT && pos < BUCKET_SIZE && id in mapInfo && id != FREE
      modifies this, vvNew
      ensures Valid() && State() == Link(old(State()), Slot(bucket, pos), id)
    {
      mapInfo := mapInfo[id := mapInfo[id].(refCount := mapInfo[id].refCount + 1)];
      SetNew(bucket, pos, id);
    }

    // `picks` are the random draws.
    method GetAddr_(picks: nat -> nat, now: int) returns (told: seq<Address>)
      requires Valid() && Inv(env, State())
      modifies this
      ensures Valid() && Inv(env, State()) && Shuffled(old(State()), State())
      ensures Told(State(), |vRandom|, told, now)
      ensures |told| == Quota(old(|vRandom|), |NotTerrible(old(State()), now)|)
      ensures (State(), told) == GetAddrFrom(env, old(State()), picks, now, 0, [])
    {
      hide Between, Told, Shuffled, GetAddrFrom;
      ghost var m := State();
      NothingTold(m, now);
      GetAddrKeeps(env, m, picks, now, 0, []);
      GetAddrTells(env, m, picks, now);
      told := [];
      var nodes: nat := GETADDR_MAX_PCT * |vRandom| / 100;
      if nodes > GETADDR_MAX {
        nodes := GETADDR_MAX;
      }
      assert nodes == GetAddrLimit(m);
      var n := 0;
      while n < |vRandom| && |told| < nodes
        invariant 0 <= n <= |vRandom| == |m.random|
        invariant Valid() && Inv(env, State())
        invariant GetAddrFrom(env, State(), picks, now, n, told) == GetAddrFrom(env, m, picks, now, 0, [])
      {
        assert GetAddrLimit(State()) == nodes;
        told := GetAddrRound(picks, now, n, told);
        n := n + 1;
      }
      GetAddrEnds(env, State(), picks, now, n, told);
    }

    method GetAddrRound(picks: nat -> nat, now: int, n: nat, found: seq<Address>) returns (told: seq<Address>)
      requires Valid() && Inv(env, State()) && n < |vRandom| && |found| < GetAddrLimit(State())
      modifies this
      ensures Valid() && Inv(env, State()) && |vRandom| == old(|vRandom|)
      ensures GetAddrFrom(env, State(), picks, now, n + 1, told) == GetAddrFrom(env, old(State()), picks, now, n, found)
    {
      hide Between, RandomOk, SwapRandom, GetAddrFrom, GetAddrLimit, Draw;
      ghost var here := State();
      RandomKnown(env, here);
      var j := Draw(picks, n, |vRandom|);
      GetAddrUnfold(env, here, picks, now, n, found, j);
      SwapRandom_(n, j);
      RandomKnown(env, State());
      assert vRandom[n] in mapInfo;
      var i := mapInfo[vRandom[n]];
      told := if i.IsTerrible(now) then found else found + [i.address];
    }
  }

  method StochasticFactor(refCount: int) returns (factor: nat)
    ensures factor == Pow2(Max0(refCount))
  {
    factor := 1;
    var n := 0;
    while n < refCount
      invariant 0 <= n && (n <= refCount || n == 0) && factor == Pow2(n)
    {
      factor := factor * 2;
      n := n + 1;
    }
  }

  lemma {:induction false} GetAddrUnfold(env: Env, m: Man, picks: nat -> nat, now: int, n: nat, found: seq<Address>, j: nat)
    requires Inv(env, m) && n < |m.random| && |found| < GetAddrLimit(m) && j == Draw(picks, n, |m.random|)
    requires RandomOk(m)
    ensures var m1 := SwapRandom(m, n, j);
            && Inv(env, m1) && |m1.random| == |m.random| && m1.random[n] in m1.info
            && GetAddrFrom(env, m, picks, now, n, found)
               == GetAddrFrom(env, m1, picks, now, n + 1,
                              if m1.info[m1.random[n]].IsTerrible(now) then found else found + [m1.info[m1.random[n]].address])
  {
    hide AddrOk, TriedOk, NewOk, RefsOk, CountsOk, IdsOk, Draw, GetAddrLimit;
    SwapRandomKeeps(env, m, n, j, {}, 0);
  }

  lemma {:induction false} GetAddrEnds(env: Env, m: Man, picks: nat -> nat, now: int, n: nat, found: seq<Address>)
    requires Inv(env, m) && n <= |m.random| && (n == |m.random| || |found| >= GetAddrLimit(m))
    ensures GetAddrFrom(env, m, picks, now, n, found) == (m, found)
  {
  }

  lemma {:induction false} RandomKnown(env: Env, m: Man)
    requires Inv(env, m)
    ensures RandomOk(m) && forall k :: 0 <= k < |m.random| ==> m.random[k] in m.info
  {
  }

  lemma {:induction false} PlaceableNotFree(env: Env, m: Man, id: int)
    requires Placeable(env, m, id)
    ensures id != FREE
  {
    hide AddrOk, CountsOk, NewOk, TriedOk, RefsOk, RandomOk;
  }

  // A bucket whose slot for this entry holds it.
  lemma {:induction false} HomeBucket(env: Env, m: Man, id: int) returns (bucket: nat)
    requires Inv(env, m) && id in m.info && !m.info[id].inTried
    ensures bucket < NEW_BUCKET_COUNT
    ensures var s := Slot(bucket, NewPosition(env, m.key, bucket, m.info[id].address.service));
            s in m.newTab && m.newTab[s] == id
  {
    hide AddrOk, CountsOk, IdsOk, RandomOk, TriedOk;
    ListedSomewhere(env, m, id);
    var s :| s in m.newTab && m.newTab[s] == id;
    bucket := s.bucket;
  }

  lemma {:induction false} IdNotFree(env: Env, m: Man, id: int)
    requires Inv(env, m) && id in m.info
    ensures id != FREE && NewOk(env, m)
  {
    hide AddrOk, CountsOk, NewOk, RandomOk, TriedOk, RefsOk;
  }

  lemma {:induction false} IdInTried(env: Env, m: Man, s: Slot)
    requires TriedOk(env, m) && s in m.triedTab
    ensures m.triedTab[s] in m.info
  {
  }

  lemma {:induction false} LooseKnown(env: Env, m: Man, loose: set<int>, uncounted: int, id: int)
    requires Between(env, m, loose, uncounted) && id in loose
    ensures id in m.info && id != FREE
  {
    hide AddrOk, CountsOk, NewOk, RandomOk, TriedOk;
  }

  function DetachedFrom(m: Man, id: int, s: Slot): Man
    requires id in m.info
  {
    if s in m.newTab && m.newTab[s] == id then Unlink(m, s) else m
  }

  // The state with an id taken out of its slots in the first buckets.
  ghost function PartlyDetached(m: Man, id: int, bucket: nat): Man
    requires id in m.info
  {
    var gone := Below(Slots(m.newTab, id), bucket);
    SetRefCount(m, id, m.info[id].refCount - |gone|).(newTab := m.newTab - gone)
  }

  lemma {:induction false} PartlyNext(env: Env, m: Man, id: int, bucket: nat)
    requires NewOk(env, m) && id in m.info
    ensures var s := Slot(bucket, NewPosition(env, m.key, bucket, m.info[id].address.service));
            PartlyDetached(m, id, bucket + 1) == DetachedFrom(PartlyDetached(m, id, bucket), id, s)
  {
    hide NewOk, Below, Slots;
    var s := Slot(bucket, NewPosition(env, m.key, bucket, m.info[id].address.service));
    var slots, p := Slots(m.newTab, id), PartlyDetached(m, id, bucket);
    BelowNext(env, m, id, bucket);
    assert s in slots <==> s in p.newTab && p.newTab[s] == id by {
      SlotsMember(m.newTab, id, s);
    }
    if s in slots {
      assert m.newTab - Below(slots, bucket + 1) == p.newTab - {s};
    }
  }

  lemma {:induction false} SlotsMember(table: Table, id: int, s: Slot)
    ensures s in Slots(table, id) <==> s in table && table[s] == id
  {
  }

  lemma {:induction false} PartlyEnds(env: Env, m: Man, id: int)
    requires NewOk(env, m) && id in m.info
    ensures PartlyDetached(m, id, 0) == m
    ensures PartlyDetached(m, id, NEW_BUCKET_COUNT) == Detach(m, id)
    ensures Detach(m, id).info[id].refCount == 0
  {
    var slots := Slots(m.newTab, id);
    assert Below(slots, 0) == {} && m.newTab - {} == m.newTab && m.info[id := m.info[id]] == m.info;
    assert Below(slots, NEW_BUCKET_COUNT) == slots by {
      forall s | s in slots
        ensures s.bucket < NEW_BUCKET_COUNT
      {
        assert s in m.newTab;
      }
    }
    assert m.newTab - slots == map s | s in m.newTab && m.newTab[s] != id :: m.newTab[s];
  }

  ghost function Below(slots: set<Slot>, bucket: nat): set<Slot> {
    set s | s in slots && s.bucket < bucket
  }

  // In one bucket an entry can only be at the position it hashes to.
  lemma {:induction false} BelowNext(env: Env, m: Man, id: int, bucket: nat)
    requires NewOk(env, m) && id in m.info
    ensures var slots, s := Slots(m.newTab, id), Slot(bucket, NewPosition(env, m.key, bucket, m.info[id].address.service));
            && s !in Below(slots, bucket)
            && Below(slots, bucket + 1) == if s in slots then Below(slots, bucket) + {s} else Below(slots, bucket)
  {
    var slots, s := Slots(m.newTab, id), Slot(bucket, NewPosition(env, m.key, bucket, m.info[id].address.service));
    forall t | t in slots && t.bucket == bucket
      ensures t == s
    {
      assert t in m.newTab && m.newTab[t] == id;
    }
    assert Below(slots, bucket + 1) == if s in slots then Below(slots, bucket) + {s} else Below(slots, bucket);
  }

  lemma SlotIn(a: array2<int>, bucket: nat, pos: nat)
    requires bucket < a.Length0 && pos < a.Length1
    ensures Slot(bucket, pos) in TableOf(a) <==> a[bucket, pos] != FREE
    ensures Slot(bucket, pos) in TableOf(a) ==> TableOf(a)[Slot(bucket, pos)] == a[bucket, pos]
  {
    assert Slot(bucket, pos) in AllSlots(a.Length0, a.Length1);
  }

  function Written(table: Table, s: Slot, id: int): Table {
    if id == FREE then table - {s} else table[s := id]
  }
}
