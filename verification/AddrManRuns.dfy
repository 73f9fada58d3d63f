// What the operations of the address manager do to its entries, and the invariant
// over whole runs.

module AddrManRuns {
  import opened Basics
  import opened AddrManState

  // Only counts, positions and table membership differ.
  ghost predicate SameEntry(a: AddrInfo, b: AddrInfo) {
    b == a.(refCount := b.refCount, randomPos := b.randomPos, inTried := b.inTried)
  }

  // ---- what goes when something comes ----

  // An entry leaves the new table altogether only with its last slot.
  lemma {:induction false} ClearNewLoses(env: Env, m: Man, s: Slot, loose: set<int>, uncounted: int, n: int)
    requires Between(env, m, loose, uncounted) && n in m.info
    ensures RandomOk(m) && (s in m.newTab ==> m.newTab[s] in m.info)
    ensures n !in ClearNew(m, s).info ==> s in m.newTab && n == m.newTab[s] && m.info[n].refCount == 1
  {
    hide AddrOk, CountsOk, IdsOk, TriedOk, RefsOk;
    ClearNewSurvives(env, m, s, loose, uncounted);
  }

  // Add_ drops an entry only from the slot it wants, only if that was the entry's
  // last slot, and only if the entry was terrible; or it drops the newcomer itself.
  lemma {:induction false} AddLosesOnlyTerrible(env: Env, m: Man, address: Address, source: NetAddr,
                                                penalty: int, now: int, random: nat, n: int)
    requires EnvOk(env) && Inv(env, m) && n in m.info
    requires n !in Add(env, m, address, source, penalty, now, random).0.info
    ensures m.info[n].refCount == 1 && m.info[n].IsTerrible(now)
  {
    hide Between, Place, Placeable;
    var penalty' := if address.service.addr == source then 0 else penalty;
    var found := Find(m, address.service.addr);
    if found.Some? {
      var id, i := found.value, Refresh(m.info[found.value], address, penalty', now);
      StatsKeep(env, m, id, i, m.lastGood);
      var m1 := SetInfo(m, id, i);
      KnownPlaceable(env, m1, id);
      if TriesAgain(i, address, random) {
        ListedSomewhere(env, m, id);
        PlaceLosesOnlyTerrible(env, m1, id, source, now, n);
      }
    } else {
      CreateKeeps(env, m, address, source, penalty');
      FreshIdUnused(env, m);
      PlaceLosesOnlyTerrible(env, Learned(m, address, source, penalty'), m.idCount, source, now, n);
    }
  }

  // Between operations every id is in exactly one of the two tables.
  lemma {:induction false} ListedSomewhere(env: Env, m: Man, id: int)
    requires Inv(env, m) && id in m.info
    ensures m.info[id].inTried <==> exists s :: s in m.triedTab && m.triedTab[s] == id
    ensures !m.info[id].inTried <==> exists s :: s in m.newTab && m.newTab[s] == id
    ensures m.info[id].refCount >= 0 && (m.info[id].inTried <==> m.info[id].refCount == 0)
  {
    hide AddrOk, CountsOk, IdsOk, RandomOk;
    if m.info[id].inTried {
      assert m.triedTab[TriedSlot(env, m.key, m.info[id].address.service)] == id;
    } else {
      assert Slots(m.newTab, id) != {};
      var s :| s in Slots(m.newTab, id);
    }
    if s :| s in m.newTab && m.newTab[s] == id {
      assert s in Slots(m.newTab, id);
    }
  }

  lemma {:induction false} FreshIdUnused(env: Env, m: Man)
    requires Inv(env, m)
    ensures m.idCount !in m.info
  {
    hide AddrOk, CountsOk, NewOk, RandomOk, TriedOk, RefsOk;
  }

  lemma {:induction false} PlaceLosesOnlyTerrible(env: Env, m: Man, id: int, source: NetAddr, now: int, n: int)
    requires Placeable(env, m, id) && n in m.info && n !in Place(env, m, id, source, now).info
    ensures n == id ==> m.info[id].refCount == 0
    ensures n != id ==> m.info[n].refCount == 1 && m.info[n].IsTerrible(now)
  {
    hide AddrOk, CountsOk, NewOk, TriedOk, IdsOk, RefsOk, RandomOk;
    var slot := NewSlot(env, m.key, m.info[id].address.service, source);
    var loose := if m.info[id].refCount == 0 then {id} else {};
    if !(slot in m.newTab && m.newTab[slot] == id) {
      ClearNewKeepsEntry(env, m, id, slot);
      ClearNewLoses(env, m, slot, loose, 0, n);
      if !Overwrites(m, slot, id, now) && m.info[id].refCount == 0 {
        DeleteSurvives(m, id);
      }
    }
  }

  // ---- what Add_ does ----

  ghost predicate Holds(m: Man, s: Slot, n: int) {
    s in m.newTab && m.newTab[s] == n
  }

  // An entry that loses one reference, or none, and keeps everything but its place in vRandom.
  ghost predicate Loses(a: AddrInfo, b: AddrInfo, one: bool) {
    b == a.(refCount := a.refCount - (if one then 1 else 0), randomPos := b.randomPos)
  }

  // Whoever was at slot s has lost it, and is gone if that was its last.
  ghost predicate Vacated(m: Man, r: Man, s: Slot, except: set<int>) {
    && r.triedTab == m.triedTab && r.nTried == m.nTried && r.key == m.key && r.lastGood == m.lastGood
    && forall n :: n in m.info && n !in except ==>
         && (n !in r.info <==> Holds(m, s, n) && m.info[n].refCount == 1)
         && (n in r.info ==> Loses(m.info[n], r.info[n], Holds(m, s, n)))
  }

  // How many entries go with their last reference when slot s is taken.
  ghost function Gone(m: Man, s: Slot): int {
    if s in m.newTab && m.newTab[s] in m.info && m.info[m.newTab[s]].refCount == 1 then 1 else 0
  }

  lemma {:induction false} ClearNewVacates(m: Man, s: Slot, except: set<int>)
    requires RandomOk(m) && (s in m.newTab ==> m.newTab[s] in m.info)
    ensures var r := ClearNew(m, s);
            && Vacated(m, r, s, except) && r.newTab == m.newTab - {s} && r.nNew == m.nNew - Gone(m, s) && r.idCount == m.idCount
            && r.info.Keys <= m.info.Keys
            && r.addr == (if Gone(m, s) == 1 then m.addr - {m.info[m.newTab[s]].Net()} else m.addr)
  {
    hide RandomOk;
    if s in m.newTab {
      var id, u := m.newTab[s], Unlink(m, s);
      UnlinkSurvives(m, s);
      if u.info[id].refCount == 0 {
        DeleteSurvives(u, id);
        DeleteFields(u, id);
        hide Delete;
      }
    } else {
      assert m.newTab - {s} == m.newTab;
    }
  }

  // The slot is free for a newcomer: nobody is there, or one that is terrible, or one that has other slots.
  ghost predicate Available(m: Man, s: Slot, now: int) {
    s in m.newTab && m.newTab[s] in m.info ==> m.info[m.newTab[s]].IsTerrible(now) || m.info[m.newTab[s]].refCount > 1
  }

  function LessPenalty(time: int, penalty: int): int {
    if time < penalty then 0 else time - penalty
  }

  // An unknown address: it is learned if its slot is available, and otherwise nothing has happened.
  ghost predicate Learns(env: Env, m: Man, r: Man, address: Address, source: NetAddr, penalty: int, now: int) {
    var a, s := address.service.addr, NewSlot(env, m.key, address.service, source);
    if Available(m, s, now) then
      a in r.addr &&
      (var id := r.addr[a];
       && id !in m.info && id in r.info && r.newTab == m.newTab[s := id] && Vacated(m, r, s, {id})
       && r.info[id] == AddrInfo(address.(time := LessPenalty(address.time, if a == source then 0 else penalty)), source,
                                 0, 0, 0, 0, 1, false, r.info[id].randomPos)
       && r.nNew == m.nNew + 1 - Gone(m, s))
    else
      a !in r.addr && Shuffled(m, r.(idCount := m.idCount))
  }

  lemma {:induction false} AddLearns(env: Env, m: Man, address: Address, source: NetAddr, penalty: int, now: int, random: nat)
    requires EnvOk(env) && Inv(env, m) && env.routable(address.service.addr) && address.service.addr !in m.addr
    ensures Add(env, m, address, source, penalty, now, random).1
    ensures Learns(env, m, Add(env, m, address, source, penalty, now, random).0, address, source, penalty, now)
  {
    hide Between, Place, Placeable, Learns;
    var penalty' := if address.service.addr == source then 0 else penalty;
    CreateKeeps(env, m, address, source, penalty');
    FreshIdUnused(env, m);
    PlaceNewcomer(env, m, address, source, penalty, now);
  }

  // What Place makes of a slot that is not the entry's own.
  lemma {:induction false} PlaceCases(env: Env, c: Man, id: int, source: NetAddr, now: int)
    requires Placeable(env, c, id)
    ensures RandomOk(c)
    ensures var s := NewSlot(env, c.key, c.info[id].address.service, source);
            && (Holds(c, s, id) ==> Place(env, c, id, source, now) == c)
            && (!Holds(c, s, id) ==>
                  && (s in c.newTab ==> c.newTab[s] in c.info)
                  && Place(env, c, id, source, now) ==
                       (if Overwrites(c, s, id, now) && id in ClearNew(c, s).info then Link(ClearNew(c, s), s, id)
                        else if c.info[id].refCount == 0 then Delete(c, id) else c)
                  && id in ClearNew(c, s).info)
  {
    hide CountsOk, IdsOk, TriedOk, RefsOk, AddrOk, NewOk, AddrInfo.IsTerrible;
    var s := NewSlot(env, c.key, c.info[id].address.service, source);
    if !Holds(c, s, id) {
      ClearNewKeepsEntry(env, c, id, s);
    }
  }

  lemma {:induction false} PlaceNewcomer(env: Env, m: Man, address: Address, source: NetAddr, penalty: int, now: int)
    requires EnvOk(env) && Inv(env, m) && address.service.addr !in m.addr && m.idCount !in m.info
    requires var c := Learned(m, address, source, if address.service.addr == source then 0 else penalty);
             Placeable(env, c, m.idCount)
    ensures var c := Learned(m, address, source, if address.service.addr == source then 0 else penalty);
            Learns(env, m, Place(env, c, m.idCount, source, now), address, source, penalty, now)
  {
    hide CountsOk, IdsOk, TriedOk, RefsOk, RandomOk, Vacated, Shuffled, Survives, AddrInfo.IsTerrible, Place, Placeable, ClearNew, Delete;
    var c, id := Learned(m, address, source, if address.service.addr == source then 0 else penalty), m.idCount;
    var s := NewSlot(env, m.key, address.service, source);
    assert s in m.newTab ==> m.newTab[s] in m.info;
    OccupantKnown(m, s);
    hide NewOk, AddrOk, Between;
    assert OneMore(m, c, id, address.service.addr);
    PlaceCases(env, c, id, source, now);
    assert Overwrites(c, s, id, now) <==> Available(m, s, now);
    if Available(m, s, now) {
      ClearNewVacates(c, s, {});
      NewcomerTakes(m, c, ClearNew(c, s), s, id, address.service.addr);
    } else {
      DeleteSurvives(c, id);
      DeleteFields(c, id);
      NewcomerGoes(m, c, Delete(c, id), id, address.service.addr);
    }
  }

  // m with one more entry, whose id and address are new.
  ghost predicate OneMore(m: Man, c: Man, id: int, a: NetAddr) {
    && id !in m.info && a !in m.addr && id in c.info && c.info[id].Net() == a
    && c.info == m.info[id := c.info[id]] && c.addr == m.addr[a := id]
    && c == m.(info := c.info, addr := c.addr, random := c.random, idCount := c.idCount, nNew := m.nNew + 1)
  }

  lemma {:induction false} NewcomerTakes(m: Man, c: Man, v: Man, s: Slot, id: int, a: NetAddr)
    requires OneMore(m, c, id, a) && !Holds(m, s, id) && (s in m.newTab ==> m.newTab[s] in m.info)
    requires s in m.newTab ==> m.info[m.newTab[s]].Net() != a
    requires id in v.info && Vacated(c, v, s, {}) && v.newTab == c.newTab - {s} && v.nNew == c.nNew - Gone(c, s)
    requires v.addr == (if Gone(c, s) == 1 then c.addr - {c.info[c.newTab[s]].Net()} else c.addr)
    ensures var r := Link(v, s, id);
            && a in r.addr && r.addr[a] == id && id in r.info && r.newTab == m.newTab[s := id] && Vacated(m, r, s, {id})
            && r.info[id] == c.info[id].(refCount := c.info[id].refCount + 1, randomPos := r.info[id].randomPos)
            && r.nNew == m.nNew + 1 - Gone(m, s)
  {
    var r := Link(v, s, id);
    assert Loses(c.info[id], v.info[id], false);
    forall n | n in m.info && n != id
      ensures n !in r.info <==> Holds(m, s, n) && m.info[n].refCount == 1
      ensures n in r.info ==> Loses(m.info[n], r.info[n], Holds(m, s, n))
    {
      assert c.info[n] == m.info[n] && (Holds(c, s, n) <==> Holds(m, s, n));
    }
  }

  lemma {:induction false} NewcomerGoes(m: Man, c: Man, d: Man, id: int, a: NetAddr)
    requires OneMore(m, c, id, a) && |c.random| == |m.random| + 1 && |d.random| == |c.random| - 1
    requires Survives(c, d) && d.info.Keys == c.info.Keys - {id}
    requires forall n :: n in c.info && n != id ==> d.info[n].refCount == c.info[n].refCount
    requires d == c.(info := d.info, random := d.random, addr := c.addr - {a}, nNew := c.nNew - 1)
    ensures a !in d.addr && Shuffled(m, d.(idCount := m.idCount))
  {
    assert d.addr == m.addr;
    assert d.info.Keys == m.info.Keys;
    forall k | k in m.info
      ensures d.info[k] == m.info[k].(randomPos := d.info[k].randomPos)
    {
      assert c.info[k] == m.info[k];
    }
  }

  lemma {:induction false} OccupantKnown(m: Man, s: Slot)
    requires AddrOk(m)
    ensures s in m.newTab && m.newTab[s] in m.info ==> m.info[m.newTab[s]].Net() in m.addr
  {
    if s in m.newTab && m.newTab[s] in m.info {
      var n := m.newTab[s];
      assert m.info[n].Net() in m.addr;
    }
  }

  // The time an entry has after a message that says `time`: it is updated only now and then.
  function UpdatedTime(known: int, time: int, penalty: int, now: int): int {
    var hours := if now - time < 24 * 60 * 60 then 1 else 24;
    if time != 0 && (known == 0 || known + penalty + hours * 60 * 60 < time) then LessPenalty(time, penalty) else known
  }

  // The message is newer than the entry, which may have one more slot and is lucky, and that slot
  // is not its own and free or held by a terrible entry.
  ghost predicate GetsSlot(m: Man, id: int, s: Slot, known: int, time: int, now: int, random: nat)
    requires id in m.info
  {
    && time != 0 && (known == 0 || known < time)
    && !m.info[id].inTried && 0 <= m.info[id].refCount < NEW_BUCKETS_PER_ADDRESS && random % Pow2(m.info[id].refCount) == 0
    && !Holds(m, s, id) && (s in m.newTab && m.newTab[s] in m.info ==> m.info[m.newTab[s]].IsTerrible(now))
  }

  // A known address: its time and services, and whether it gets one more slot.
  ghost predicate Refreshes(env: Env, m: Man, r: Man, address: Address, source: NetAddr, penalty: int, now: int, random: nat)
    requires address.service.addr in m.addr && m.addr[address.service.addr] in m.info
  {
    var a := address.service.addr;
    var id, i := m.addr[a], m.info[m.addr[a]];
    var time := UpdatedTime(i.address.time, address.time, if a == source then 0 else penalty, now);
    var s := NewSlot(env, m.key, i.address.service, source);
    var more := GetsSlot(m, id, s, time, address.time, now, random);
    && id in r.info && a in r.addr && r.addr[a] == id
    && r.info[id] == i.(address := i.address.(time := time, services := i.address.services + address.services),
                        refCount := i.refCount + (if more then 1 else 0), randomPos := r.info[id].randomPos)
    && (more ==> r.newTab == m.newTab[s := id] && Vacated(m, r, s, {id}) && r.nNew == m.nNew - Gone(m, s))
    && (!more ==> r == m.(info := m.info[id := r.info[id]]) && r.info[id].randomPos == i.randomPos)
  }

  lemma {:induction false} AddRefreshes(env: Env, m: Man, address: Address, source: NetAddr, penalty: int, now: int, random: nat)
    requires EnvOk(env) && Inv(env, m) && env.routable(address.service.addr)
    requires address.service.addr in m.addr && m.addr[address.service.addr] in m.info
    ensures !Add(env, m, address, source, penalty, now, random).1
    ensures Refreshes(env, m, Add(env, m, address, source, penalty, now, random).0, address, source, penalty, now, random)
  {
    hide Between, Place, Placeable, Refreshes;
    var a := address.service.addr;
    var id, penalty' := m.addr[a], if a == source then 0 else penalty;
    var i := Refresh(m.info[id], address, penalty', now);
    StatsKeep(env, m, id, i, m.lastGood);
    var m1 := SetInfo(m, id, i);
    KnownPlaceable(env, m1, id);
    ListedSomewhere(env, m, id);
    KnownByAddress(env, m, a);
    if TriesAgain(i, address, random) {
      PlaceKnown(env, m, address, source, penalty, now, random);
    } else {
      NotAgain(env, m, address, source, penalty, now, random);
    }
  }

  lemma {:induction false} KnownByAddress(env: Env, m: Man, a: NetAddr)
    requires Inv(env, m) && a in m.addr
    ensures m.addr[a] in m.info && m.info[m.addr[a]].Net() == a && m.info[m.addr[a]].refCount <= NEW_BUCKETS_PER_ADDRESS
  {
    hide CountsOk, IdsOk, TriedOk, RandomOk, NewOk;
    var id := m.addr[a];
    assert id in m.info;
    assert m.info[id].inTried ==> m.info[id].refCount == 0;
  }

  lemma {:induction false} NotAgain(env: Env, m: Man, address: Address, source: NetAddr, penalty: int, now: int, random: nat)
    requires address.service.addr in m.addr && m.addr[address.service.addr] in m.info
    requires var id := m.addr[address.service.addr];
             var i := Refresh(m.info[id], address, if address.service.addr == source then 0 else penalty, now);
             m.info[id].refCount >= 0 && m.info[id].refCount <= NEW_BUCKETS_PER_ADDRESS && !TriesAgain(i, address, random)
    ensures var id := m.addr[address.service.addr];
            var i := Refresh(m.info[id], address, if address.service.addr == source then 0 else penalty, now);
            Refreshes(env, m, SetInfo(m, id, i), address, source, penalty, now, random)
  {
    hide Pow2;
  }

  lemma {:induction false} PlaceKnown(env: Env, m: Man, address: Address, source: NetAddr, penalty: int, now: int, random: nat)
    requires Inv(env, m) && address.service.addr in m.addr && m.addr[address.service.addr] in m.info
    requires var id := m.addr[address.service.addr];
             var i := Refresh(m.info[id], address, if address.service.addr == source then 0 else penalty, now);
             0 < m.info[id].refCount <= NEW_BUCKETS_PER_ADDRESS && TriesAgain(i, address, random) && Placeable(env, SetInfo(m, id, i), id)
    ensures var id := m.addr[address.service.addr];
            var i := Refresh(m.info[id], address, if address.service.addr == source then 0 else penalty, now);
            Refreshes(env, m, Place(env, SetInfo(m, id, i), id, source, now), address, source, penalty, now, random)
  {
    hide CountsOk, IdsOk, TriedOk, RefsOk, RandomOk, Vacated, Pow2, AddrInfo.IsTerrible, Place, Placeable, ClearNew, Delete;
    var a := address.service.addr;
    var id := m.addr[a];
    var i := Refresh(m.info[id], address, if a == source then 0 else penalty, now);
    var m1, s := SetInfo(m, id, i), NewSlot(env, m.key, m.info[id].address.service, source);
    assert m.info[id].Net() == a;
    assert s in m.newTab ==> m.newTab[s] in m.info;
    OccupantElsewhere(m, s, id);
    hide NewOk, AddrOk, Between;
    PlaceCases(env, m1, id, source, now);
    if !Holds(m, s, id) {
      assert Overwrites(m1, s, id, now) <==> (s in m.newTab ==> m.info[m.newTab[s]].IsTerrible(now));
      if Overwrites(m1, s, id, now) {
        ClearNewVacates(m1, s, {});
        KnownTakes(m, m1, ClearNew(m1, s), s, id, a);
      }
    }
  }

  lemma {:induction false} OccupantElsewhere(m: Man, s: Slot, id: int)
    requires AddrOk(m) && id in m.info
    ensures s in m.newTab && m.newTab[s] in m.info && m.newTab[s] != id ==> m.info[m.newTab[s]].Net() != m.info[id].Net()
  {
    if s in m.newTab && m.newTab[s] in m.info {
      var n := m.newTab[s];
      assert m.addr[m.info[n].Net()] == n && m.addr[m.info[id].Net()] == id;
    }
  }

  lemma {:induction false} KnownTakes(m: Man, c: Man, v: Man, s: Slot, id: int, a: NetAddr)
    requires id in m.info && id in c.info && c == m.(info := m.info[id := c.info[id]]) && !Holds(m, s, id)
    requires a in m.addr && m.addr[a] == id && (s in m.newTab ==> m.newTab[s] in m.info && m.info[m.newTab[s]].Net() != a)
    requires id in v.info && Vacated(c, v, s, {}) && v.newTab == c.newTab - {s} && v.nNew == c.nNew - Gone(c, s)
    requires v.addr == (if Gone(c, s) == 1 then c.addr - {c.info[c.newTab[s]].Net()} else c.addr)
    ensures var r := Link(v, s, id);
            && a in r.addr && r.addr[a] == id && id in r.info && r.newTab == m.newTab[s := id] && Vacated(m, r, s, {id})
            && r.info[id] == c.info[id].(refCount := c.info[id].refCount + 1, randomPos := r.info[id].randomPos)
            && r.nNew == m.nNew - Gone(m, s)
  {
    var r := Link(v, s, id);
    assert Loses(c.info[id], v.info[id], false);
    forall n | n in m.info && n != id
      ensures n !in r.info <==> Holds(m, s, n) && m.info[n].refCount == 1
      ensures n in r.info ==> Loses(m.info[n], r.info[n], Holds(m, s, n))
    {
      assert c.info[n] == m.info[n] && (Holds(c, s, n) <==> Holds(m, s, n));
    }
  }

  lemma {:induction false} AddOutcome(env: Env, m: Man, address: Address, source: NetAddr, penalty: int, now: int, random: nat)
    requires EnvOk(env) && Inv(env, m)
    ensures var (r, isNew) := Add(env, m, address, source, penalty, now, random);
            if !env.routable(address.service.addr) then r == m && !isNew
            else if address.service.addr !in m.addr then isNew && Learns(env, m, r, address, source, penalty, now)
            else !isNew && m.addr[address.service.addr] in m.info && Refreshes(env, m, r, address, source, penalty, now, random)
  {
    hide Between, Place, Placeable, Refresh, TriesAgain, Learned, Learns, Refreshes;
    if env.routable(address.service.addr) {
      if address.service.addr !in m.addr {
        AddLearns(env, m, address, source, penalty, now, random);
      } else {
        KnownByAddress(env, m, address.service.addr);
        AddRefreshes(env, m, address, source, penalty, now, random);
      }
    }
  }

  // ---- what Good_ does ----

  lemma {:induction false} EvictFrame(env: Env, m: Man, s: Slot, loose: set<int>, uncounted: int, n: int)
    requires EnvOk(env) && Between(env, m, loose, uncounted) && s in m.triedTab && n in m.info
    ensures var r, e := Evict(env, m, s, loose, uncounted), m.triedTab[s];
            && (n in r.info ==> SameEntry(m.info[n], r.info[n]) && r.info[n].inTried == (m.info[n].inTried && n != e))
            && (n !in r.info ==> m.info[n].refCount == 1)
            && r.info.Keys <= m.info.Keys
  {
    hide AddrOk, CountsOk, IdsOk, NewOk, RandomOk;
    var id, retired := m.triedTab[s], Retire(m, s);
    var slot := NewSlot(env, m.key, m.info[id].address.service, m.info[id].source);
    RetireKeeps(env, m, s, loose, uncounted);
    ClearNewSurvives(env, retired, slot, loose + {id}, uncounted + 1);
    ClearNewLoses(env, retired, slot, loose + {id}, uncounted + 1, n);
    ClearNewKeeps(env, retired, slot, loose + {id}, uncounted + 1);
  }

  // The entry ends up in the tried table, at the one slot it hashes to; at most one
  // other entry is pushed out of that table, and at most one out of the manager.
  lemma {:induction false} MakeTriedFrame(env: Env, m: Man, id: int, n: int)
    requires EnvOk(env) && Inv(env, m) && id in m.info && !m.info[id].inTried && n in m.info
    ensures var r, slot := MakeTried(env, m, id), TriedSlot(env, m.key, m.info[id].address.service);
            && id in r.info && r.info[id].inTried && slot in r.triedTab && r.triedTab[slot] == id
            && (n in r.info ==> SameEntry(m.info[n], r.info[n]))
            && (n in r.info && n != id ==>
                  r.info[n].inTried == (m.info[n].inTried && !(slot in m.triedTab && m.triedTab[slot] == n)))
            && (n !in r.info ==> m.info[n].refCount == 1)
            && r.info.Keys <= m.info.Keys
  {
    hide AddrOk, CountsOk, IdsOk, NewOk, RandomOk, TriedOk, RefsOk, Between, Detach, Evict;
    var slot := TriedSlot(env, m.key, m.info[id].address.service);
    var out := Detach(m, id).(nNew := m.nNew - 1);
    DetachedKeeps(env, m, id);
    RoomKeeps(env, out, id, slot);
    DetachFrame(m, id, n);
    RoomFrame(env, out, id, slot, n);
    RoomFrame(env, out, id, slot, id);
  }

  lemma {:induction false} DetachFrame(m: Man, id: int, n: int)
    requires id in m.info && n in m.info
    ensures var d := Detach(m, id);
            && d.info.Keys == m.info.Keys && d.triedTab == m.triedTab && d.key == m.key
            && SameEntry(m.info[n], d.info[n]) && d.info[n].inTried == m.info[n].inTried
            && (n != id ==> d.info[n] == m.info[n])
            && d.info[id] == m.info[id].(refCount := d.info[id].refCount)
  {
  }

  lemma {:induction false} RoomFrame(env: Env, out: Man, id: int, slot: Slot, n: int)
    requires EnvOk(env) && Between(env, out, {id}, 1) && n in out.info
    ensures var room := if slot in out.triedTab then Evict(env, out, slot, {id}, 1) else out;
            && (n in room.info ==>
                  && SameEntry(out.info[n], room.info[n])
                  && room.info[n].inTried == (out.info[n].inTried && !(slot in out.triedTab && out.triedTab[slot] == n)))
            && (n !in room.info ==> out.info[n].refCount == 1)
            && room.info.Keys <= out.info.Keys
  {
    hide Between, Evict;
    if slot in out.triedTab {
      EvictFrame(env, out, slot, {id}, 1, n);
    }
  }

  // The entry that was evicted is at the new slot it hashes to, and nowhere else.
  lemma {:induction false} EvictTables(env: Env, m: Man, s: Slot, loose: set<int>, uncounted: int)
    requires EnvOk(env) && Between(env, m, loose, uncounted) && s in m.triedTab
    ensures var r, e := Evict(env, m, s, loose, uncounted), m.triedTab[s];
            && e in m.info && e in r.info && r.info[e].refCount == 1 && !r.info[e].inTried
            && r.newTab == m.newTab[NewSlot(env, m.key, m.info[e].address.service, m.info[e].source) := e]
            && r.triedTab == m.triedTab - {s} && r.nTried == m.nTried - 1
  {
    hide AddrOk, CountsOk, IdsOk, RefsOk, NewOk, RandomOk, ClearNew, Vacated;
    var id, retired := m.triedTab[s], Retire(m, s);
    assert id in m.info;
    var slot := NewSlot(env, m.key, m.info[id].address.service, m.info[id].source);
    RetireKeeps(env, m, s, loose, uncounted);
    hide TriedOk;
    ClearNewKeeps(env, retired, slot, loose + {id}, uncounted + 1);
    LooseStays(env, retired, slot, loose + {id}, uncounted + 1, id);
    hide Between;
    ClearNewVacates(retired, slot, {});
    VacatedTables(retired, ClearNew(retired, slot), slot, {});
  }

  lemma {:induction false} VacatedTables(m: Man, r: Man, s: Slot, except: set<int>)
    requires Vacated(m, r, s, except)
    ensures r.triedTab == m.triedTab && r.nTried == m.nTried && r.key == m.key && r.lastGood == m.lastGood
  {
    hide Loses;
  }

  lemma {:induction false} LooseStays(env: Env, m: Man, s: Slot, loose: set<int>, uncounted: int, id: int)
    requires Between(env, m, loose, uncounted) && id in loose
    ensures RandomOk(m) && (s in m.newTab ==> m.newTab[s] in m.info)
    ensures id in m.info && id in ClearNew(m, s).info && !ClearNew(m, s).info[id].inTried
  {
    hide AddrOk, CountsOk, IdsOk, TriedOk, RandomOk;
    ClearNewSurvives(env, m, s, loose, uncounted);
    if s in m.newTab {
      ListedNotLoose(env, m, s, loose);
    }
  }

  // The tables without an id.
  ghost function Without(table: Table, id: int): Table {
    map s | s in table && table[s] != id :: table[s]
  }

  // The entry has left all its new slots for its tried slot; who was there is where a newcomer
  // with its source would be, in place of whoever was there.
  ghost predicate MovedToTried(env: Env, m: Man, r: Man, id: int)
    requires id in m.info
  {
    var slot := TriedSlot(env, m.key, m.info[id].address.service);
    && r.triedTab == m.triedTab[slot := id]
    && (slot !in m.triedTab ==> r.newTab == Without(m.newTab, id) && r.nTried == m.nTried + 1)
    && (slot in m.triedTab ==>
          && m.triedTab[slot] in m.info && r.nTried == m.nTried
          && (var e := m.triedTab[slot];
              r.newTab == Without(m.newTab, id)[NewSlot(env, m.key, m.info[e].address.service, m.info[e].source) := e]))
  }

  lemma {:induction false} MakeTriedTables(env: Env, m: Man, id: int)
    requires EnvOk(env) && Inv(env, m) && id in m.info && !m.info[id].inTried
    ensures MovedToTried(env, m, MakeTried(env, m, id), id)
  {
    hide AddrOk, CountsOk, IdsOk, NewOk, RandomOk, RefsOk, Evict;
    var slot := TriedSlot(env, m.key, m.info[id].address.service);
    var out := Detach(m, id).(nNew := m.nNew - 1);
    DetachedKeeps(env, m, id);
    RoomKeeps(env, out, id, slot);
    assert out.newTab == Without(m.newTab, id);
    if slot in m.triedTab {
      var e := m.triedTab[slot];
      assert e in m.info && m.info[e].inTried;
      DetachFrame(m, id, e);
      hide Between, TriedOk, Detach;
      EvictTables(env, out, slot, {id}, 1);
      assert (out.triedTab - {slot})[slot := id] == m.triedTab[slot := id];
    }
  }

  predicate Matches(m: Man, s: Service) {
    Find(m, s.addr).Some? && m.info[Find(m, s.addr).value].address.service == s
  }

  // A known service that was reached is in the tried table afterwards, with its
  // success recorded and its failures forgotten.
  lemma {:induction false} GoodMoves(env: Env, m: Man, s: Service, time: int)
    requires EnvOk(env) && Inv(env, m) && Matches(m, s)
    ensures var r, id := Good(env, m, s, time), m.addr[s.addr];
            && id in r.info && r.info[id].inTried
            && TriedSlot(env, r.key, s) in r.triedTab && r.triedTab[TriedSlot(env, r.key, s)] == id
            && r.info[id].lastSuccess == r.info[id].lastTry == time && r.info[id].attempts == 0
            && r.lastGood == time && r.key == m.key
            && (!m.info[id].inTried ==> MovedToTried(env, m, r, id))
            && (m.info[id].inTried ==> r.newTab == m.newTab && r.triedTab == m.triedTab && r.nTried == m.nTried)
  {
    hide AddrOk, CountsOk, IdsOk, NewOk, RandomOk, RefsOk, MakeTried;
    var id := m.addr[s.addr];
    var i := m.info[id].(lastSuccess := time, lastTry := time, attempts := 0);
    StatsKeep(env, m, id, i, time);
    var m2 := SetInfo(m.(lastGood := time), id, i);
    if !i.inTried {
      MakeTriedFrame(env, m2, id, id);
      MakeTriedKey(env, m2, id);
      MakeTriedTables(env, m2, id);
    } else {
      assert m.triedTab[TriedSlot(env, m.key, m.info[id].address.service)] == id;
    }
  }

  lemma {:induction false} MakeTriedKey(env: Env, m: Man, id: int)
    requires EnvOk(env) && Inv(env, m) && id in m.info && !m.info[id].inTried
    ensures MakeTried(env, m, id).key == m.key && MakeTried(env, m, id).lastGood == m.lastGood
  {
    hide AddrOk, CountsOk, IdsOk, NewOk, RandomOk, TriedOk, RefsOk;
    var slot := TriedSlot(env, m.key, m.info[id].address.service);
    var out := Detach(m, id).(nNew := m.nNew - 1);
    DetachedKeeps(env, m, id);
    RoomKeeps(env, out, id, slot);
  }

  // ---- what the smaller operations do ----

  // Nothing but the entry of id has changed.
  ghost predicate OnlyEntry(m: Man, r: Man, id: int) {
    id in m.info && id in r.info && r == m.(info := m.info[id := r.info[id]])
  }

  // A service that nobody knows under just that port changes nothing; Good_ notes the time.
  lemma {:induction false} UnknownIgnored(env: Env, m: Man, s: Service, countFailure: bool, time: int, services: set<nat>)
    requires EnvOk(env) && Inv(env, m) && !Matches(m, s)
    ensures Attempt(m, s, countFailure, time) == Connected(m, s, time) == SetServices(m, s, services) == m
    ensures Good(env, m, s, time) == m.(lastGood := time)
  {
    hide Between;
  }

  // Failed attempts are counted once between two successes of anybody: the second of two counts
  // if and only if the first was dated before the last success.
  lemma {:induction false} FailureCountsOnce(m: Man, s: Service, t: int, t': int)
    requires Matches(m, s)
    ensures var id, i := m.addr[s.addr], m.info[m.addr[s.addr]];
            var r := Attempt(Attempt(m, s, true, t), s, true, t');
            && OnlyEntry(m, r, id) && r.info[id].lastTry == t'
            && r.info[id] == i.(lastTry := t', attempts := r.info[id].attempts, lastCountAttempt := r.info[id].lastCountAttempt)
            && (i.lastCountAttempt >= m.lastGood ==>
                  r.info[id].attempts == i.attempts && r.info[id].lastCountAttempt == i.lastCountAttempt)
            && (i.lastCountAttempt < m.lastGood ==>
                  && r.info[id].attempts == i.attempts + (if t < m.lastGood then 2 else 1)
                  && r.info[id].lastCountAttempt == if t < m.lastGood then t' else t)
  {
    var r1 := Attempt(m, s, true, t);
    assert Matches(r1, s) && r1.addr == m.addr;
  }

  // An attempt that is not to count only sets the time of the last try.
  lemma {:induction false} UncountedAttempt(m: Man, s: Service, time: int)
    requires Matches(m, s)
    ensures var id, r := m.addr[s.addr], Attempt(m, s, false, time);
            OnlyEntry(m, r, id) && r.info[id] == m.info[id].(lastTry := time)
  {
    assert Attempt(m, s, false, time).info[m.addr[s.addr]].lastTry == time;
  }

  // Connected_ moves the time of an entry in steps of more than twenty minutes, however often it is called.
  lemma {:induction false} ConnectedSteps(m: Man, s: Service, t: int, t': int)
    requires Matches(m, s)
    ensures var id, r := m.addr[s.addr], Connected(Connected(m, s, t), s, t');
            var was, once := m.info[id].address.time, Connected(m, s, t).info[id].address.time;
            && OnlyEntry(m, r, id) && r.info[id] == m.info[id].(address := m.info[id].address.(time := r.info[id].address.time))
            && once == (if t > was + 1200 then t else was) && r.info[id].address.time == (if t' > once + 1200 then t' else once)
  {
    var r1 := Connected(m, s, t);
    assert Matches(r1, s) && r1.addr == m.addr;
    assert m.info[m.addr[s.addr] := m.info[m.addr[s.addr]]] == m.info;
  }

  // The last SetServices_ wins.
  lemma {:induction false} ServicesSet(m: Man, s: Service, first: set<nat>, last: set<nat>)
    requires Matches(m, s)
    ensures var id, r := m.addr[s.addr], SetServices(SetServices(m, s, first), s, last);
            && OnlyEntry(m, r, id) && r.info[id].address.services == last
            && r.info[id] == m.info[id].(address := m.info[id].address.(services := last))
  {
    var r1 := SetServices(m, s, first);
    assert Matches(r1, s) && r1.addr == m.addr;
  }

  // ---- terrible entries ----

  // An entry that was not tried within the last minute is worth keeping if and only if it is dated
  // within the last thirty days, or at most ten minutes ahead, and has not failed too often: three
  // times if it was never reached, ten times if that was over a week ago.
  lemma {:induction false} WorthKeeping(i: AddrInfo, now: int)
    ensures i.lastTry != 0 && now - i.lastTry <= 60 ==> !i.IsTerrible(now)
    ensures i.lastTry == 0 || now - i.lastTry > 60 ==>
      (!i.IsTerrible(now) <==>
       && i.address.time != 0 && -600 <= now - i.address.time <= 2592000
       && i.attempts < (if i.lastSuccess == 0 then 3 else if now - i.lastSuccess > 604800 then 10 else i.attempts + 1))
  {
    assert SECONDS_PER_DAY == 86400;
  }

  // So the third failure that counts, on an entry never reached, makes it terrible a minute later
  // and not before.
  lemma {:induction false} ThirdFailure(m: Man, s: Service, t: int, now: int)
    requires Matches(m, s) && t != 0 && now - t > 60
    requires var i := m.info[m.addr[s.addr]];
             i.lastSuccess == 0 && i.attempts == 2 && i.lastCountAttempt < m.lastGood && !i.IsTerrible(t)
    ensures var i := Attempt(m, s, true, t).info[m.addr[s.addr]]; i.IsTerrible(now) && !i.IsTerrible(t) && !i.IsTerrible(t + 60)
  {
    WorthKeeping(m.info[m.addr[s.addr]], t);
  }

  // ---- how many addresses GetAddr_ tells ----

  ghost function NotTerrible(m: Man, now: int): set<int> {
    set n | n in m.info && !m.info[n].IsTerrible(now)
  }

  // Those that are still to be looked at in round n.
  ghost function ToCome(m: Man, now: int, n: nat): set<int> {
    set id | id in NotTerrible(m, now) && m.info[id].randomPos >= n
  }

  // Of the addresses that are worth telling all, but at most 23 in 100 of all entries and at most 2500.
  function Quota(entries: nat, worth: nat): nat {
    if worth <= 2500 && 100 * worth <= 23 * entries then worth
    else if 250000 <= 23 * entries then 2500
    else 23 * entries / 100
  }

  lemma {:induction false} GetAddrTells(env: Env, m: Man, picks: nat -> nat, now: int)
    requires Inv(env, m)
    ensures |GetAddrFrom(env, m, picks, now, 0, []).1| == Quota(|m.random|, |NotTerrible(m, now)|)
  {
    hide Between, GetAddrFrom;
    GetAddrCounts(env, m, picks, now, 0, []);
    assert ToCome(m, now, 0) == NotTerrible(m, now) by { AllToCome(env, m, now); }
  }

  lemma {:induction false} AllToCome(env: Env, m: Man, now: int)
    requires Inv(env, m)
    ensures ToCome(m, now, 0) == NotTerrible(m, now) && ToCome(m, now, |m.random|) == {}
  {
    hide CountsOk, IdsOk, TriedOk, RefsOk, NewOk, AddrOk, AddrInfo.IsTerrible;
    forall id | id in m.info
      ensures 0 <= m.info[id].randomPos < |m.random|
    {
    }
  }

  lemma {:induction false} GetAddrCounts(env: Env, m: Man, picks: nat -> nat, now: int, n: nat, found: seq<Address>)
    requires Inv(env, m) && n <= |m.random| && |found| <= GetAddrLimit(m)
    ensures var all, told := |found| + |ToCome(m, now, n)|, GetAddrFrom(env, m, picks, now, n, found).1;
            |told| == if all <= GetAddrLimit(m) then all else GetAddrLimit(m)
    decreases |m.random| - n
  {
    hide Between, ToCome, GetAddrLimit, AddrInfo.IsTerrible, SwapRandom;
    if n == |m.random| {
      AllToCome(env, m, now);
    } else if |found| < GetAddrLimit(m) {
      var j := Draw(picks, n, |m.random|);
      SwapRandomKeeps(env, m, n, j, {}, 0);
      OneLessToCome(env, m, n, j, now);
      var m1 := SwapRandom(m, n, j);
      SameLimit(m, m1);
      var i := m1.info[m1.random[n]];
      GetAddrCounts(env, m1, picks, now, n + 1, if i.IsTerrible(now) then found else found + [i.address]);
    }
  }

  lemma {:induction false} SameLimit(m: Man, r: Man)
    requires |r.random| == |m.random|
    ensures GetAddrLimit(r) == GetAddrLimit(m)
  {
  }

  lemma {:induction false} OneLessToCome(env: Env, m: Man, n: nat, j: nat, now: int)
    requires Inv(env, m) && n <= j < |m.random|
    ensures RandomOk(m)
    ensures var m1 := SwapRandom(m, n, j);
            && |m1.random| == |m.random| && m1.random[n] in m1.info
            && |ToCome(m, now, n)| == |ToCome(m1, now, n + 1)| + (if m1.info[m1.random[n]].IsTerrible(now) then 0 else 1)
  {
    hide CountsOk, IdsOk, TriedOk, RefsOk, NewOk, AddrOk;
    SwapRandomOk(m, n, j);
    var m1, id := SwapRandom(m, n, j), m.random[j];
    assert m1.random[n] == id && id in m1.info && m1.info[id].randomPos == n;
    forall k
      ensures k in ToCome(m, now, n) <==> k in ToCome(m1, now, n + 1) || (k == id && !m1.info[id].IsTerrible(now))
    {
      SameButPosition(m, n, j, k, now);
    }
    assert id !in ToCome(m1, now, n + 1);
    assert ToCome(m, now, n) == ToCome(m1, now, n + 1) + (if m1.info[id].IsTerrible(now) then {} else {id});
  }

  // A swap of positions from n on leaves every entry on its side of n.
  lemma {:induction false} SameButPosition(m: Man, n: nat, j: nat, k: int, now: int)
    requires RandomOk(m) && n <= j < |m.random|
    ensures var m1 := SwapRandom(m, n, j);
            && (k in m.info <==> k in m1.info)
            && (k in m.info ==>
                  && (m1.info[k].IsTerrible(now) <==> m.info[k].IsTerrible(now))
                  && (m1.info[k].randomPos >= n <==> m.info[k].randomPos >= n)
                  && (m1.info[k].randomPos == n <==> k == m.random[j]))
  {
    if k in m.info {
      assert m.random[m.info[k].randomPos] == k;
      assert m.info[m.random[n]].randomPos == n && m.info[m.random[j]].randomPos == j;
    }
  }

  // ---- the times Check_ looks at ----

  // Calling Good_ keeps them exactly when it is given a positive time, or an
  // address nobody knows.
  lemma {:induction false} GoodTimes(env: Env, m: Man, s: Service, time: int)
    requires EnvOk(env) && Inv(env, m) && TimesOk(m)
    ensures TimesOk(Good(env, m, s, time)) <==> time > 0 || !Matches(m, s)
  {
    hide Between, MakeTried;
    var r := Good(env, m, s, time);
    if Matches(m, s) {
      var id := m.addr[s.addr];
      GoodMoves(env, m, s, time);
      var i := m.info[id].(lastSuccess := time, lastTry := time, attempts := 0);
      StatsKeep(env, m, id, i, time);
      var m2 := SetInfo(m.(lastGood := time), id, i);
      forall n | time > 0 && n in r.info
        ensures r.info[n].lastTry >= 0 && r.info[n].lastSuccess >= 0 && (r.info[n].inTried ==> r.info[n].lastSuccess != 0)
      {
        if !i.inTried {
          MakeTriedFrame(env, m2, id, id);
          assert n in m2.info;
          MakeTriedFrame(env, m2, id, n);
        }
      }
    }
  }

  lemma {:induction false} AttemptTimes(m: Man, s: Service, countFailure: bool, time: int)
    requires TimesOk(m)
    ensures TimesOk(Attempt(m, s, countFailure, time)) <==> time >= 0 || !Matches(m, s)
  {
    if Matches(m, s) {
      var r := Attempt(m, s, countFailure, time);
      assert r.info[m.addr[s.addr]].lastTry == time;
    }
  }

  // Placing an entry touches no statistics.
  lemma {:induction false} PlaceSurvives(env: Env, m: Man, id: int, source: NetAddr, now: int)
    requires Placeable(env, m, id)
    ensures Survives(m, Place(env, m, id, source, now).(triedTab := m.triedTab))
  {
    hide AddrOk, CountsOk, NewOk, TriedOk, IdsOk, RefsOk, ClearNew, Delete;
    var slot := NewSlot(env, m.key, m.info[id].address.service, source);
    if !(slot in m.newTab && m.newTab[slot] == id) {
      ClearNewKeepsEntry(env, m, id, slot);
      if Overwrites(m, slot, id, now) {
        ClearNewSurvives(env, m, slot, if m.info[id].refCount == 0 then {id} else {}, 0);
      } else if m.info[id].refCount == 0 {
        DeleteSurvives(m, id);
      }
    }
  }

  lemma {:induction false} AddKey(env: Env, m: Man, address: Address, source: NetAddr, penalty: int, now: int, random: nat)
    requires EnvOk(env) && Inv(env, m)
    ensures Add(env, m, address, source, penalty, now, random).0.key == m.key
  {
    hide Between, Place, Placeable;
    var penalty' := if address.service.addr == source then 0 else penalty;
    var found := Find(m, address.service.addr);
    if found.Some? {
      var id, i := found.value, Refresh(m.info[found.value], address, penalty', now);
      StatsKeep(env, m, id, i, m.lastGood);
      var m1 := SetInfo(m, id, i);
      KnownPlaceable(env, m1, id);
      if TriesAgain(i, address, random) {
        PlaceSurvives(env, m1, id, source, now);
      }
    } else {
      CreateKeeps(env, m, address, source, penalty');
      PlaceSurvives(env, Learned(m, address, source, penalty'), m.idCount, source, now);
    }
  }

  lemma {:induction false} AddTimes(env: Env, m: Man, address: Address, source: NetAddr, penalty: int, now: int, random: nat)
    requires EnvOk(env) && Inv(env, m) && TimesOk(m)
    ensures TimesOk(Add(env, m, address, source, penalty, now, random).0)
  {
    hide Between, Place, Placeable;
    var penalty' := if address.service.addr == source then 0 else penalty;
    var found := Find(m, address.service.addr);
    if found.Some? {
      var id, i := found.value, Refresh(m.info[found.value], address, penalty', now);
      StatsKeep(env, m, id, i, m.lastGood);
      var m1 := SetInfo(m, id, i);
      KnownPlaceable(env, m1, id);
      if TriesAgain(i, address, random) {
        PlaceSurvives(env, m1, id, source, now);
      }
    } else {
      CreateKeeps(env, m, address, source, penalty');
      PlaceSurvives(env, Learned(m, address, source, penalty'), m.idCount, source, now);
    }
  }

  // ---- runs ----

  datatype Op =
    | OpAdd(address: Address, source: NetAddr, penalty: int, now: int, random: nat)
    | OpGood(service: Service, time: int)
    | OpAttempt(service: Service, countFailure: bool, time: int)
    | OpConnected(service: Service, time: int)
    | OpSetServices(service: Service, services: set<nat>)
    | OpGetAddr(picks: nat -> nat, now: int)

  function Step(env: Env, m: Man, op: Op): (r: Man)
    requires EnvOk(env) && Inv(env, m)
    ensures Inv(env, r)
  {
    hide Between;
    match op
    case OpAdd(address, source, penalty, now, random) =>
      AddKeeps(env, m, address, source, penalty, now, random);
      Add(env, m, address, source, penalty, now, random).0
    case OpGood(s, time) =>
      GoodKeeps(env, m, s, time);
      Good(env, m, s, time)
    case OpAttempt(s, countFailure, time) =>
      MinorKeeps(env, m, s, countFailure, time, {});
      Attempt(m, s, countFailure, time)
    case OpConnected(s, time) =>
      MinorKeeps(env, m, s, false, time, {});
      Connected(m, s, time)
    case OpSetServices(s, services) =>
      MinorKeeps(env, m, s, false, 0, services);
      SetServices(m, s, services)
    case OpGetAddr(picks, now) =>
      NothingTold(m, now);
      GetAddrKeeps(env, m, picks, now, 0, []);
      GetAddrFrom(env, m, picks, now, 0, []).0
  }

  // Every run from construction keeps the invariant.
  function Steps(env: Env, m: Man, ops: seq<Op>): (r: Man)
    requires EnvOk(env) && Inv(env, m)
    ensures Inv(env, r)
    decreases ops
  {
    if ops == [] then m else Steps(env, Step(env, m, ops[0]), ops[1..])
  }

  predicate Timely(op: Op) {
    match op
    case OpGood(_, time) => time > 0
    case OpAttempt(_, _, time) => time >= 0
    case _ => true
  }

  lemma {:induction false} StepTimes(env: Env, m: Man, op: Op)
    requires EnvOk(env) && Inv(env, m) && TimesOk(m) && Timely(op)
    ensures TimesOk(Step(env, m, op))
  {
    hide Between, Add, Good;
    match op {
      case OpAdd(address, source, penalty, now, random) =>
        AddTimes(env, m, address, source, penalty, now, random);
      case OpGood(s, time) =>
        GoodTimes(env, m, s, time);
      case OpAttempt(s, countFailure, time) =>
        AttemptTimes(m, s, countFailure, time);
      case OpConnected(s, time) =>
      case OpSetServices(s, services) =>
      case OpGetAddr(picks, now) =>
        NothingTold(m, now);
        GetAddrKeeps(env, m, picks, now, 0, []);
    }
  }

  lemma {:induction false} StepsTimes(env: Env, m: Man, ops: seq<Op>)
    requires EnvOk(env) && Inv(env, m) && TimesOk(m) && (forall op :: op in ops ==> Timely(op))
    ensures TimesOk(Steps(env, m, ops))
    decreases ops
  {
    hide Between, TimesOk, Step;
    if ops != [] {
      StepTimes(env, m, ops[0]);
      StepsTimes(env, Step(env, m, ops[0]), ops[1..]);
    }
  }

  // The conditions Check_ tests; the numbers are the codes it would return.
  ghost predicate CheckPasses(env: Env, m: Man) {
    && CheckEntries(m) && CheckTried(env, m) && CheckNew(env, m)
    && |m.random| == m.nTried + m.nNew                                               // -7
    && |TriedIds(m)| == m.nTried && |NewIds(m)| == m.nNew                            // -9 -10
    && m.key != 0                                                                    // -16
  }

  ghost predicate CheckEntries(m: Man) {
    forall n :: n in m.info ==>
      var i := m.info[n];
      && (i.inTried ==> i.lastSuccess != 0 && i.refCount == 0)                       // -1 -2
      && (!i.inTried ==> 0 < i.refCount <= NEW_BUCKETS_PER_ADDRESS)                  // -3 -4
      && i.Net() in m.addr && m.addr[i.Net()] == n                                   // -5
      && 0 <= i.randomPos < |m.random| && m.random[i.randomPos] == n                 // -14
      && i.lastTry >= 0 && i.lastSuccess >= 0                                        // -6 -8
  }

  ghost predicate CheckTried(env: Env, m: Man) {
    && (forall s :: s in m.triedTab ==>
          && m.triedTab[s] in TriedIds(m)                                            // -11
          && s == TriedSlot(env, m.key, m.info[m.triedTab[s]].address.service))      // -17 -18
    && (forall s, t :: s in m.triedTab && t in m.triedTab && m.triedTab[s] == m.triedTab[t] ==> s == t) // -11
    && (forall n :: n in TriedIds(m) ==> exists s :: s in m.triedTab && m.triedTab[s] == n)             // -13
  }

  ghost predicate CheckNew(env: Env, m: Man) {
    && (forall s :: s in m.newTab ==>
          && m.newTab[s] in NewIds(m)                                                // -12
          && s.pos == NewPosition(env, m.key, s.bucket, m.info[m.newTab[s]].address.service)) // -19
    && (forall n :: n in NewIds(m) ==> |Slots(m.newTab, n)| == m.info[n].refCount)   // -12 -15
  }

  lemma {:induction false} StepKey(env: Env, m: Man, op: Op)
    requires EnvOk(env) && Inv(env, m)
    ensures Step(env, m, op).key == m.key
  {
    hide Between, Add, Good;
    match op {
      case OpAdd(address, source, penalty, now, random) =>
        AddKey(env, m, address, source, penalty, now, random);
      case OpGood(s, time) =>
        if Matches(m, s) {
          GoodMoves(env, m, s, time);
        } else {
          GoodOfUnknown(env, m, s, time);
        }
      case OpGetAddr(picks, now) =>
        NothingTold(m, now);
        GetAddrKeeps(env, m, picks, now, 0, []);
      case _ =>
    }
  }

  lemma {:induction false} GoodOfUnknown(env: Env, m: Man, s: Service, time: int)
    requires EnvOk(env) && Inv(env, m) && !Matches(m, s)
    ensures Good(env, m, s, time).key == m.key
  {
  }

  // The secret key is never touched.
  lemma {:induction false} StepsKey(env: Env, m: Man, ops: seq<Op>)
    requires EnvOk(env) && Inv(env, m)
    ensures Steps(env, m, ops).key == m.key
    decreases ops
  {
    hide Between, Step;
    if ops != [] {
      StepKey(env, m, ops[0]);
      StepsKey(env, Step(env, m, ops[0]), ops[1..]);
    }
  }

  // After every run with sane times, Check_ finds nothing but a null key.
  lemma {:induction false} RunPassesCheck(env: Env, key: nat, ops: seq<Op>)
    requires EnvOk(env) && (forall op :: op in ops ==> Timely(op))
    ensures Inv(env, Empty(key)) && (CheckPasses(env, Steps(env, Empty(key), ops)) <==> key != 0)
  {
    hide Between, TimesOk, CheckPasses;
    EmptyInv(env, key);
    StepsKey(env, Empty(key), ops);
    StepsTimes(env, Empty(key), ops);
    InvPassesCheck(env, Steps(env, Empty(key), ops));
  }

  lemma {:induction false} InvPassesCheck(env: Env, m: Man)
    requires Inv(env, m) && TimesOk(m)
    ensures CheckPasses(env, m) <==> m.key != 0
  {
    hide CheckEntries, CheckTried, CheckNew, AddrOk, TriedOk, RefsOk, IdsOk;
    EntriesPass(m);
    TriedPasses(env, m);
    NewPasses(env, m);
    assert TriedIds(m) + NewIds(m) == m.info.Keys && TriedIds(m) !! NewIds(m);
    assert |TriedIds(m) + NewIds(m)| == |TriedIds(m)| + |NewIds(m)|;
  }

  lemma {:induction false} EntriesPass(m: Man)
    requires AddrOk(m) && RandomOk(m) && RefsOk(m, {}) && TimesOk(m)
    requires forall n :: n in m.info ==> m.info[n].refCount >= 0
    ensures CheckEntries(m)
  {
  }

  lemma {:induction false} TriedPasses(env: Env, m: Man)
    requires TriedOk(env, m)
    ensures CheckTried(env, m)
  {
    forall n | n in TriedIds(m)
      ensures exists s :: s in m.triedTab && m.triedTab[s] == n
    {
      assert m.triedTab[TriedSlot(env, m.key, m.info[n].address.service)] == n;
    }
  }

  lemma {:induction false} NewPasses(env: Env, m: Man)
    requires NewOk(env, m) && RefsOk(m, {})
    ensures CheckNew(env, m)
  {
    forall s | s in m.newTab
      ensures m.newTab[s] in NewIds(m)
    {
      assert s in Slots(m.newTab, m.newTab[s]);
    }
  }

  // What Check_ does not look at: that ids are below the next one, that mapAddr has no address
  // without an entry, and that slots are in the table.
  ghost predicate Unchecked(m: Man) {
    && IdsOk(m)
    && (forall a :: a in m.addr ==> m.addr[a] in m.info && m.info[m.addr[a]].Net() == a)
    && (forall s :: s in m.newTab ==> s.bucket < NEW_BUCKET_COUNT)
  }

  // Apart from that it is exact: it passes if and only if the invariant holds, the times are sane
  // and the key is not null.
  lemma {:induction false} CheckIsExact(env: Env, m: Man)
    requires Unchecked(m)
    ensures CheckPasses(env, m) <==> Inv(env, m) && TimesOk(m) && m.key != 0
  {
    hide Between, CheckPasses, TimesOk, Unchecked;
    if CheckPasses(env, m) {
      PassedIsConsistent(env, m);
    }
    if Inv(env, m) && TimesOk(m) {
      InvPassesCheck(env, m);
    }
  }

  lemma {:induction false} PassedIsConsistent(env: Env, m: Man)
    requires Unchecked(m) && CheckPasses(env, m)
    ensures Inv(env, m) && TimesOk(m) && m.key != 0
  {
    assert TriedIds(m) + NewIds(m) == m.info.Keys && TriedIds(m) !! NewIds(m);
    assert |TriedIds(m) + NewIds(m)| == |TriedIds(m)| + |NewIds(m)|;
    PassedEntries(m);
    PassedTables(env, m);
    hide CheckEntries, CheckTried, CheckNew, AddrOk, RandomOk, TriedOk, NewOk, RefsOk;
  }

  lemma {:induction false} PassedEntries(m: Man)
    requires CheckEntries(m) && |m.random| == |m.info|
    requires forall a :: a in m.addr ==> m.addr[a] in m.info && m.info[m.addr[a]].Net() == a
    ensures AddrOk(m) && RandomOk(m) && RefsOk(m, {}) && TimesOk(m)
  {
    forall i | 0 <= i < |m.random|
      ensures m.random[i] in m.info && m.info[m.random[i]].randomPos == i
    {
      EveryPositionTaken(m, i);
    }
  }

  ghost function Positions(m: Man, ids: set<int>): set<int> {
    set n | n in ids && n in m.info :: m.info[n].randomPos
  }

  // There are as many entries as positions, and no two share one.
  lemma {:induction false} EveryPositionTaken(m: Man, i: nat)
    requires i < |m.random| == |m.info|
    requires forall n :: n in m.info ==> 0 <= m.info[n].randomPos < |m.random| && m.random[m.info[n].randomPos] == n
    ensures m.random[i] in m.info && m.info[m.random[i]].randomPos == i
  {
    var taken := Positions(m, m.info.Keys);
    PositionsSize(m, m.info.Keys);
    assert |m.info.Keys| == |m.info|;
    assert i in taken by {
      RangeSize(taken + {i}, |m.random|);
    }
    var n :| n in m.info && m.info[n].randomPos == i;
  }

  lemma {:induction false} PositionsSize(m: Man, ids: set<int>)
    requires ids <= m.info.Keys
    requires forall n, k :: n in ids && k in ids && n != k ==> m.info[n].randomPos != m.info[k].randomPos
    ensures |Positions(m, ids)| == |ids|
  {
    if exists n :: n in ids {
      var n :| n in ids;
      PositionsSize(m, ids - {n});
      assert Positions(m, ids) == Positions(m, ids - {n}) + {m.info[n].randomPos};
    } else {
      assert |ids| == 0 && Positions(m, ids) == {};
    }
  }

  lemma {:induction false} RangeSize(s: set<int>, n: nat)
    requires forall x :: x in s ==> 0 <= x < n
    ensures |s| <= n
  {
    if n > 0 {
      RangeSize(s - {n - 1}, n - 1);
    } else {
      assert forall x :: x !in s;
      assert |s| == 0;
    }
  }

  lemma {:induction false} PassedTables(env: Env, m: Man)
    requires CheckEntries(m) && CheckTried(env, m) && CheckNew(env, m)
    requires forall s :: s in m.newTab ==> s.bucket < NEW_BUCKET_COUNT
    ensures TriedOk(env, m) && NewOk(env, m)
  {
    forall n | n in m.info && m.info[n].inTried
      ensures TriedSlot(env, m.key, m.info[n].address.service) in m.triedTab
      ensures m.triedTab[TriedSlot(env, m.key, m.info[n].address.service)] == n
    {
      assert n in TriedIds(m);
      var s :| s in m.triedTab && m.triedTab[s] == n;
      assert s == TriedSlot(env, m.key, m.info[m.triedTab[s]].address.service);
    }
    forall n | n in m.info
      ensures m.info[n].refCount == |Slots(m.newTab, n)|
    {
      if m.info[n].inTried {
        forall s | s in m.newTab
          ensures m.newTab[s] != n
        {
          assert m.newTab[s] in NewIds(m);
        }
        assert Slots(m.newTab, n) == {};
      } else {
        assert n in NewIds(m);
      }
    }
  }

  function Empty(key: nat): Man {
    Man(key, 0, map[], map[], [], 0, map[], 0, map[], 1)
  }

  lemma {:induction false} EmptyInv(env: Env, key: nat)
    ensures Inv(env, Empty(key)) && TimesOk(Empty(key))
  {
    var m := Empty(key);
    assert TriedIds(m) == {} && NewIds(m) == {};
  }

  lemma {:induction false} NothingTold(m: Man, now: int)
    ensures Told(m, 0, [], now)
  {
  }
}
