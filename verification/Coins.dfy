// The stack of unspent-coin caches (src/coins.cpp, src/coins.h).
//
// CoinEntries holds the values: coins, cache entries with their DIRTY and FRESH
// flags, and what a layer of entries means over the view below it. CoinsCache
// holds the mutable layers and the theorem about whole runs.

module CoinEntries {
  import opened Basics

  datatype OutPoint = OutPoint(hash: nat, n: nat)

  datatype TxOut = TxOut(value: int, script: seq<bv8>) {
    predicate IsNull() {
      value == -1
    }

    predicate IsUnspendable() {
      (|script| > 0 && script[0] == OP_RETURN) || |script| > MAX_SCRIPT_SIZE
    }
  }

  const OP_RETURN: bv8 := 0x6a
  const MAX_SCRIPT_SIZE := 10000

  // A script of up to 28 bytes is stored in place, a longer one on the heap.
  const INLINE_SCRIPT_SIZE := 28

  datatype Coin = Coin(out: TxOut, height: nat, coinBase: bool) {
    predicate IsSpent() {
      out.IsNull()
    }

    function Usage(): nat {
      if |out.script| <= INLINE_SCRIPT_SIZE then 0 else |out.script|
    }
  }

  // What Coin::Clear leaves behind, and the coin of a default-constructed entry.
  const CLEARED := Coin(TxOut(-1, []), 0, false)

  datatype CacheEntry = CacheEntry(coin: Coin, isDirty: bool, isFresh: bool)

  type Coins = map<OutPoint, Coin>
  type Entries = map<OutPoint, CacheEntry>

  ghost predicate AllUnspent(coins: Coins) {
    forall o :: o in coins ==> !coins[o].IsSpent()
  }

  // The coins visible through a layer of entries lying over the view `under`.
  function Overlay(under: Coins, entries: Entries): (view: Coins) {
    map o | o in under.Keys + entries.Keys && (o in entries ==> !entries[o].coin.IsSpent())
      :: if o in entries then entries[o].coin else under[o]
  }

  // What the flags of one entry claim about the view below.
  ghost predicate EntryOk(under: Coins, o: OutPoint, e: CacheEntry) {
    && (!e.isDirty ==> o in under && under[o] == e.coin)
    && (e.isFresh ==> o !in under && e.isDirty && !e.coin.IsSpent())
  }

  ghost predicate Consistent(under: Coins, entries: Entries) {
    forall o :: o in entries ==> EntryOk(under, o, entries[o])
  }

  // Overlaying, key by key.
  function Lookup(coins: Coins, o: OutPoint): Option<Coin> {
    if o in coins then Some(coins[o]) else None
  }

  lemma SameLookupsSameCoins(a: Coins, b: Coins)
    requires forall o :: Lookup(a, o) == Lookup(b, o)
    ensures a == b
  {
    forall o | o in a.Keys + b.Keys
      ensures o in a && o in b && a[o] == b[o]
    {
      assert Lookup(a, o) == Lookup(b, o);
    }
  }

  lemma OverlayUnspent(under: Coins, entries: Entries)
    requires AllUnspent(under)
    ensures AllUnspent(Overlay(under, entries))
  {
  }

  lemma OverlayNothing(under: Coins)
    ensures Overlay(under, map[]) == under
  {
  }

  // ---- memory accounting ----

  ghost function TotalUsage(entries: Entries): nat {
    if entries == map[] then 0
    else
      var o :| o in entries;
      entries[o].coin.Usage() + TotalUsage(entries - {o})
  }

  // The sum may be taken apart at any key, not only at the one it picked.
  lemma {:induction false} UsageWithout(entries: Entries, o: OutPoint)
    requires o in entries
    ensures TotalUsage(entries) == entries[o].coin.Usage() + TotalUsage(entries - {o})
    decreases |entries|
  {
    var p :| p in entries && TotalUsage(entries) == entries[p].coin.Usage() + TotalUsage(entries - {p});
    if p != o {
      var both := entries - {p} - {o};
      assert entries - {o} - {p} == both;
      assert |entries - {p}| < |entries| by { assert (entries - {p}).Keys < entries.Keys; Smaller((entries - {p}).Keys, entries.Keys); }
      assert |entries - {o}| < |entries| by { assert (entries - {o}).Keys < entries.Keys; Smaller((entries - {o}).Keys, entries.Keys); }
      UsageWithout(entries - {p}, o);
      UsageWithout(entries - {o}, p);
    }
  }

  lemma {:induction false} Smaller<T>(a: set<T>, b: set<T>)
    requires a < b
    ensures |a| < |b|
  {
    assert |b| == |a| + |b - a| by { assert a + (b - a) == b; }
    assert b - a != {};
  }

  lemma UsageAfterWrite(entries: Entries, o: OutPoint, e: CacheEntry)
    ensures TotalUsage(entries[o := e])
            == TotalUsage(entries) - (if o in entries then entries[o].coin.Usage() else 0) + e.coin.Usage()
  {
    UsageWithout(entries[o := e], o);
    assert entries[o := e] - {o} == entries - {o};
    if o in entries {
      UsageWithout(entries, o);
    } else {
      assert entries - {o} == entries;
    }
  }

  // ---- adding and spending a coin in one layer ----

  function EntryOrDefault(entries: Entries, o: OutPoint): CacheEntry {
    if o in entries then entries[o] else CacheEntry(CLEARED, false, false)
  }

  predicate AddThrows(entries: Entries, o: OutPoint, overwrite: bool) {
    !overwrite && !EntryOrDefault(entries, o).coin.IsSpent()
  }

  function Added(entries: Entries, o: OutPoint, coin: Coin, overwrite: bool): Entries {
    var e := EntryOrDefault(entries, o);
    entries[o := CacheEntry(coin, true, e.isFresh || (!overwrite && !e.isDirty))]
  }

  // An added coin is always the one seen. Its flags stay honest exactly when the
  // caller did not deny an overwrite of a coin that only a lower level holds.
  lemma AddKeeps(under: Coins, entries: Entries, o: OutPoint, coin: Coin, overwrite: bool)
    requires AllUnspent(under) && Consistent(under, entries) && !coin.IsSpent()
    requires !AddThrows(entries, o, overwrite)
    ensures Overlay(under, Added(entries, o, coin, overwrite)) == Overlay(under, entries)[o := coin]
    ensures Consistent(under, Added(entries, o, coin, overwrite)) <==> overwrite || o in entries || o !in under
  {
    var added := Added(entries, o, coin, overwrite);
    assert Overlay(under, added) == Overlay(under, entries)[o := coin];
    if o in entries {
      assert EntryOk(under, o, entries[o]);
    }
    assert EntryOk(under, o, added[o]) <==> overwrite || o in entries || o !in under;
    forall p | p in added && p != o
      ensures EntryOk(under, p, added[p])
    {
      assert EntryOk(under, p, entries[p]);
    }
  }

  function Spent(entries: Entries, o: OutPoint): Entries
    requires o in entries
  {
    if entries[o].isFresh then entries - {o}
    else entries[o := CacheEntry(CLEARED, true, false)]
  }

  lemma SpendKeeps(under: Coins, entries: Entries, o: OutPoint)
    requires AllUnspent(under) && Consistent(under, entries) && o in entries
    ensures Consistent(under, Spent(entries, o))
    ensures Overlay(under, Spent(entries, o)) == Overlay(under, entries) - {o}
    ensures TotalUsage(Spent(entries, o)) == TotalUsage(entries) - entries[o].coin.Usage()
  {
    hide EntryOk, Overlay;
    assert EntryOk(under, o, entries[o]);
    SpentConsistent(under, entries, o);
    SpentShows(under, entries, o);
    hide Consistent;
    UsageWithout(entries, o);
    UsageAfterWrite(entries, o, CacheEntry(CLEARED, true, false));
  }

  lemma SpentConsistent(under: Coins, entries: Entries, o: OutPoint)
    requires Consistent(under, entries) && o in entries
    ensures Consistent(under, Spent(entries, o))
  {
    var left := Spent(entries, o);
    forall p | p in left
      ensures EntryOk(under, p, left[p])
    {
      if p != o {
        assert EntryOk(under, p, entries[p]);
      }
    }
  }

  lemma SpentShows(under: Coins, entries: Entries, o: OutPoint)
    requires o in entries && EntryOk(under, o, entries[o])
    ensures Overlay(under, Spent(entries, o)) == Overlay(under, entries) - {o}
  {
    forall p
      ensures Lookup(Overlay(under, Spent(entries, o)), p) == Lookup(Overlay(under, entries) - {o}, p)
    {
    }
    SameLookupsSameCoins(Overlay(under, Spent(entries, o)), Overlay(under, entries) - {o});
  }

  // When the overwrite was denied although a lower level holds a coin, spending the
  // new coin brings the old one back into view instead of removing both.
  lemma DeniedOverwriteResurrects(under: Coins, entries: Entries, o: OutPoint, coin: Coin)
    requires AllUnspent(under) && Consistent(under, entries) && !coin.IsSpent()
    requires o !in entries && o in under
    ensures var added := Added(entries, o, coin, false);
            && Overlay(under, added)[o] == coin
            && Overlay(under, Spent(added, o)) == Overlay(under, entries)
            && o in Overlay(under, Spent(added, o))
  {
    var added := Added(entries, o, coin, false);
    assert Spent(added, o) == entries;
  }

  // ---- merging one entry of a child cache (the body of BatchWrite's loop) ----

  datatype Merge = Merged(entries: Entries) | Misapplied

  function MergeEntry(entries: Entries, o: OutPoint, child: CacheEntry): Merge {
    if !child.isDirty then
      Merged(entries)
    else if o !in entries then
      if child.isFresh && child.coin.IsSpent() then Merged(entries)
      else Merged(entries[o := CacheEntry(child.coin, true, child.isFresh)])
    else if child.isFresh && !entries[o].coin.IsSpent() then
      Misapplied
    else if entries[o].isFresh && child.coin.IsSpent() then
      Merged(entries - {o})
    else
      Merged(entries[o := CacheEntry(child.coin, true, entries[o].isFresh)])
  }

  // Merging an entry that is honest about this view moves it down exactly: the
  // "FRESH flag misapplied" exit is not taken, the flags of the merged layer are
  // honest about the view two levels down, and the layer shows what the child showed.
  lemma MergeKeeps(under: Coins, entries: Entries, o: OutPoint, child: CacheEntry)
    requires AllUnspent(under) && Consistent(under, entries)
    requires EntryOk(Overlay(under, entries), o, child)
    ensures MergeEntry(entries, o, child).Merged?
    ensures Consistent(under, MergeEntry(entries, o, child).entries)
    ensures Overlay(under, MergeEntry(entries, o, child).entries) == Overlay(Overlay(under, entries), map[o := child])
  {
    assert o in entries ==> EntryOk(under, o, entries[o]);
    var merged := MergeEntry(entries, o, child).entries;
    forall p | p in merged
      ensures EntryOk(under, p, merged[p])
    {
      if p != o {
        assert EntryOk(under, p, entries[p]);
      }
    }
    hide Consistent;
    MergeShows(under, entries, o, child);
  }

  lemma MergeShows(under: Coins, entries: Entries, o: OutPoint, child: CacheEntry)
    requires AllUnspent(under) && (o in entries ==> EntryOk(under, o, entries[o]))
    requires EntryOk(Overlay(under, entries), o, child) && MergeEntry(entries, o, child).Merged?
    ensures Overlay(under, MergeEntry(entries, o, child).entries) == Overlay(Overlay(under, entries), map[o := child])
  {
    var merged := MergeEntry(entries, o, child).entries;
    forall p
      ensures Lookup(Overlay(under, merged), p) == Lookup(Overlay(Overlay(under, entries), map[o := child]), p)
    {
    }
    SameLookupsSameCoins(Overlay(under, merged), Overlay(Overlay(under, entries), map[o := child]));
  }

  // A batch while it is merged into the entries that were `start` before it.
  ghost predicate Merging(start: Entries, entries: Entries, batch: Entries, todo: Entries, done: Entries) {
    && (forall o :: o in batch <==> o in todo || o in done)
    && (forall o :: o in todo ==> o !in done && todo[o] == batch[o] && SameAt(entries, start, o))
    && (forall o :: o in done ==> done[o] == batch[o] && MergeEntry(start, o, batch[o]).Merged?)
  }

  lemma MergingStarts(start: Entries, batch: Entries)
    ensures Merging(start, start, batch, batch, map[])
  {
    hide MergeEntry;
  }

  lemma MergingNext(start: Entries, entries: Entries, batch: Entries, todo: Entries, done: Entries, o: OutPoint)
    requires Merging(start, entries, batch, todo, done) && o in todo
    ensures o in batch && o !in done && todo[o] == batch[o]
    ensures MergeEntry(entries, o, batch[o]).Merged? <==> MergeEntry(start, o, batch[o]).Merged?
    ensures MergeEntry(entries, o, batch[o]).Merged? ==>
      Merging(start, MergeEntry(entries, o, batch[o]).entries, batch, todo - {o}, done[o := batch[o]])
  {
    MergeDependsOnKey(entries, start, o, batch[o]);
    if MergeEntry(entries, o, batch[o]).Merged? {
      MergeTouchesKey(entries, o, batch[o]);
    }
    hide MergeEntry;
  }

  lemma MergeTouchesKey(entries: Entries, o: OutPoint, child: CacheEntry)
    requires MergeEntry(entries, o, child).Merged?
    ensures forall p :: p != o ==> SameAt(MergeEntry(entries, o, child).entries, entries, p)
  {
  }

  lemma MergingEnds(start: Entries, entries: Entries, batch: Entries, done: Entries)
    requires Merging(start, entries, batch, map[], done)
    ensures done == batch && forall o :: o in batch ==> MergeEntry(start, o, batch[o]).Merged?
  {
    hide MergeEntry;
  }

  // The entries show the view below the batch with the part of it that is merged.
  ghost predicate Shows(under: Coins, entries: Entries, view: Coins, done: Entries) {
    Consistent(under, entries) && Overlay(under, entries) == Overlay(view, done)
  }

  lemma ShowsStarts(under: Coins, entries: Entries)
    requires Consistent(under, entries)
    ensures Shows(under, entries, Overlay(under, entries), map[])
  {
    hide Consistent, Overlay;
    OverlayNothing(Overlay(under, entries));
  }

  lemma ShowsMeans(under: Coins, entries: Entries, view: Coins, done: Entries)
    requires Shows(under, entries, view, done)
    ensures Consistent(under, entries) && Overlay(under, entries) == Overlay(view, done)
  {
    hide Consistent, Overlay;
  }

  lemma ShowsNext(under: Coins, entries: Entries, view: Coins, batch: Entries, done: Entries, o: OutPoint)
    requires AllUnspent(under) && Consistent(view, batch) && Shows(under, entries, view, done) && o in batch && o !in done
    ensures MergeEntry(entries, o, batch[o]).Merged?
    ensures Shows(under, MergeEntry(entries, o, batch[o]).entries, view, done[o := batch[o]])
  {
    hide Overlay, EntryOk, MergeEntry;
    assert EntryOk(view, o, batch[o]);
    hide Consistent;
    OverlayOneMore(view, done, o, batch[o]);
    MergeKeeps(under, entries, o, batch[o]);
  }

  // Overlaying one more entry of a batch.
  lemma OverlayOneMore(view: Coins, batch: Entries, o: OutPoint, e: CacheEntry)
    requires o !in batch
    ensures Overlay(Overlay(view, batch), map[o := e]) == Overlay(view, batch[o := e])
    ensures EntryOk(view, o, e) ==> EntryOk(Overlay(view, batch), o, e)
  {
    forall p
      ensures Lookup(Overlay(Overlay(view, batch), map[o := e]), p) == Lookup(Overlay(view, batch[o := e]), p)
    {
    }
    SameLookupsSameCoins(Overlay(Overlay(view, batch), map[o := e]), Overlay(view, batch[o := e]));
  }

  // The entries after looking `o` up: a coin the view below shows is cached, clean.
  function Fetched(under: Coins, entries: Entries, o: OutPoint): Entries {
    if o in entries || o !in under then entries else entries[o := CacheEntry(under[o], false, false)]
  }

  // Caching what the view below shows changes nothing.
  lemma FetchedShows(under: Coins, entries: Entries, o: OutPoint)
    requires AllUnspent(under) && Consistent(under, entries)
    ensures o in Fetched(under, entries, o) <==> o in Overlay(under, entries) || o in entries
    ensures o in Overlay(under, entries) ==> Fetched(under, entries, o)[o].coin == Overlay(under, entries)[o]
    ensures o in Fetched(under, entries, o) && o !in Overlay(under, entries) ==> Fetched(under, entries, o)[o].coin.IsSpent()
  {
  }

  lemma CachingKeeps(under: Coins, entries: Entries, o: OutPoint)
    requires AllUnspent(under) && Consistent(under, entries) && o !in entries && o in under
    ensures Consistent(under, entries[o := CacheEntry(under[o], false, false)])
    ensures Overlay(under, entries[o := CacheEntry(under[o], false, false)]) == Overlay(under, entries)
    ensures TotalUsage(entries[o := CacheEntry(under[o], false, false)]) == TotalUsage(entries) + under[o].Usage()
  {
    UsageAfterWrite(entries, o, CacheEntry(under[o], false, false));
    assert Overlay(under, entries[o := CacheEntry(under[o], false, false)]) == Overlay(under, entries);
  }

  lemma UncachingKeeps(under: Coins, entries: Entries, o: OutPoint)
    requires AllUnspent(under) && Consistent(under, entries)
    requires o in entries && !entries[o].isDirty
    ensures Consistent(under, entries - {o}) && Overlay(under, entries - {o}) == Overlay(under, entries)
  {
    assert EntryOk(under, o, entries[o]);
    assert Overlay(under, entries - {o}) == Overlay(under, entries);
  }

  predicate SameAt(a: Entries, b: Entries, o: OutPoint) {
    (o in a <==> o in b) && (o in a ==> a[o] == b[o])
  }

  lemma MergeDependsOnKey(a: Entries, b: Entries, o: OutPoint, child: CacheEntry)
    requires SameAt(a, b, o)
    ensures MergeEntry(a, o, child).Merged? <==> MergeEntry(b, o, child).Merged?
  {
  }

  // The DIRTY entries carry everything the layer shows beyond the view below it.
  function DirtyPart(entries: Entries): Entries {
    map o | o in entries && entries[o].isDirty :: entries[o]
  }

  lemma DirtyPartSuffices(under: Coins, entries: Entries)
    requires Consistent(under, entries) && AllUnspent(under)
    ensures Overlay(under, DirtyPart(entries)) == Overlay(under, entries)
  {
    forall p
      ensures Lookup(Overlay(under, DirtyPart(entries)), p) == Lookup(Overlay(under, entries), p)
    {
      if p in entries {
        assert EntryOk(under, p, entries[p]);
      }
    }
    SameLookupsSameCoins(Overlay(under, DirtyPart(entries)), Overlay(under, entries));
  }
}

module CoinsCache {
  import opened Basics
  import opened CoinEntries

  const NULL_HASH: nat := 0

  // The store at the bottom of every stack. Only unspent coins are kept in it.
  class CoinsViewDB {
    var coins: Coins
    var bestBlock: nat

    constructor ()
      ensures coins == map[] && bestBlock == NULL_HASH
    {
      coins := map[];
      bestBlock := NULL_HASH;
    }

    // The batch is written with its DIRTY entries; a spent one is erased.
    method BatchWrite(mapCoins: Entries, hashBlock: nat)
      requires AllUnspent(coins) && hashBlock != NULL_HASH
      modifies this
      ensures AllUnspent(coins) && bestBlock == hashBlock
      ensures coins == Overlay(old(coins), DirtyPart(mapCoins))
      ensures Consistent(old(coins), mapCoins) ==> coins == Overlay(old(coins), mapCoins)
    {
      hide Overlay, Consistent, AllUnspent;
      var todo := mapCoins;
      ghost var written: Entries := map[];
      ghost var before := coins;
      assert Overlay(before, written) == before by { OverlayNothing(before); }
      while todo != map[]
        invariant forall o :: o in mapCoins && mapCoins[o].isDirty ==> o in todo || o in written
        invariant forall o :: o in todo ==> o in mapCoins && o !in written && todo[o] == mapCoins[o]
        invariant forall o :: o in written ==> o in mapCoins && mapCoins[o].isDirty && written[o] == mapCoins[o]
        invariant coins == Overlay(before, written)
        decreases todo.Keys
      {
        var o :| o in todo;
        var e := todo[o];
        if e.isDirty {
          WriteOne(o, e);
          OverlayOneMore(before, written, o, e);
          written := written[o := e];
        }
        todo := todo - {o};
      }
      assert written == DirtyPart(mapCoins);
      bestBlock := hashBlock;
      OverlayUnspent(before, written);
      if Consistent(before, mapCoins) {
        DirtyPartSuffices(before, mapCoins);
      }
    }

    method WriteOne(o: OutPoint, e: CacheEntry)
      modifies this
      ensures coins == Overlay(old(coins), map[o := e]) && bestBlock == old(bestBlock)
    {
      if e.coin.IsSpent() {
        coins := coins - {o};
      } else {
        coins := coins[o := e.coin];
      }
    }
  }

  // What one level of a stack shows, and the best-block hash it records itself.
  datatype Level = Level(view: Coins, hash: nat)

  // The block hash GetBestBlock answers with: the topmost recorded one.
  function BestOf(levels: seq<Level>): nat {
    if levels == [] then NULL_HASH
    else
      var top := levels[|levels| - 1];
      if top.hash != NULL_HASH then top.hash else BestOf(levels[..|levels| - 1])
  }

  function WithTop(levels: seq<Level>, top: Level): seq<Level>
    requires levels != []
  {
    levels[..|levels| - 1] + [top]
  }

  lemma SameTop(levels: seq<Level>)
    requires levels != []
    ensures WithTop(levels, levels[|levels| - 1]) == levels
  {
  }

  function BestFilled(levels: seq<Level>): seq<Level>
    requires levels != []
  {
    var top := levels[|levels| - 1];
    if |levels| == 1 || top.hash != NULL_HASH then levels
    else BestFilled(levels[..|levels| - 1]) + [Level(top.view, BestOf(levels))]
  }

  class CoinsViewCache {
    // The view below: another cache, or the database when there is none.
    const base: CoinsViewCache?
    const db: CoinsViewDB

    var cacheCoins: Entries
    var hashBlock: nat
    var cachedCoinsUsage: int

    ghost const Repr: set<object>

    ghost predicate Valid()
      reads this, Repr
      decreases Repr, 1
      ensures Valid() ==> this in Repr && db in Repr
    {
      && this in Repr && db in Repr
      && (base != null ==>
            && base in Repr && base.Repr <= Repr && this !in base.Repr
            && base.db == db && base.Valid())
      && AllUnspent(Under())
      && Consistent(Under(), cacheCoins)
      && cachedCoinsUsage == TotalUsage(cacheCoins)
    }

    // The coins the view below shows.
    ghost function Under(): Coins
      requires this in Repr && db in Repr
      requires base != null ==> base in Repr && base.Repr <= Repr && this !in base.Repr && base.Valid()
      reads Repr
      decreases Repr, 0
    {
      if base == null then db.coins else base.View()
    }

    ghost function View(): Coins
      requires Valid()
      reads Repr
      decreases Repr, 2
    {
      Overlay(Under(), cacheCoins)
    }

    // Every level from the database (index 0) up to this cache.
    ghost function Levels(): (levels: seq<Level>)
      requires Valid()
      reads Repr
      decreases Repr
      ensures |levels| >= 2 && levels[|levels| - 1] == Level(View(), hashBlock)
      ensures levels[|levels| - 2].view == Under()
      ensures |levels| == 2 <==> base == null
    {
      (if base == null then [Level(db.coins, db.bestBlock)] else base.Levels()) + [Level(View(), hashBlock)]
    }

    constructor (baseIn: CoinsViewCache?, dbIn: CoinsViewDB)
      requires baseIn != null ==> baseIn.Valid() && baseIn.db == dbIn
      requires baseIn == null ==> AllUnspent(dbIn.coins)
      ensures Valid() && base == baseIn && db == dbIn && cacheCoins == map[] && hashBlock == NULL_HASH
      ensures Repr == {this} + (if baseIn == null then {dbIn} else baseIn.Repr)
      ensures View() == Under()
    {
      base := baseIn;
      db := dbIn;
      cacheCoins := map[];
      hashBlock := NULL_HASH;
      cachedCoinsUsage := 0;
      Repr := {this} + (if baseIn == null then {dbIn} else baseIn.Repr);
      new;
      if base != null {
        OverlayUnspent(base.Under(), base.cacheCoins);
      }
      assert Overlay(Under(), map[]) == Under();
    }

    // Rewriting this layer changes only what this level shows, and leaves the stack
    // valid exactly when the flags are honest and the usage is exact.
    twostate lemma OnlyTopRewritten()
      requires old(Valid())
      requires unchanged(Repr - {this})
      ensures Valid() <==> Consistent(old(Under()), cacheCoins) && cachedCoinsUsage == TotalUsage(cacheCoins)
      ensures Valid() ==> Under() == old(Under())
      ensures Valid() ==> Levels() == WithTop(old(Levels()), Level(Overlay(old(Under()), cacheCoins), hashBlock))
    {
      if base != null {
        assert unchanged(base.Repr);
      }
    }

    // base->GetCoin: the call lands in the database or in the cache below.
    method BaseGetCoin(o: OutPoint) returns (coin: Option<Coin>)
      requires Valid()
      modifies Repr
      ensures Valid() && Levels() == old(Levels())
      ensures cacheCoins == old(cacheCoins) && hashBlock == old(hashBlock) && cachedCoinsUsage == old(cachedCoinsUsage)
      ensures coin == Lookup(Under(), o)
      decreases Repr, 0
    {
      if base == null {
        coin := if o in db.coins then Some(db.coins[o]) else None;
      } else {
        coin := base.GetCoin(o);
      }
    }

    // Looking a coin up pulls it into the cache, at every level it passes, and
    // changes nothing that any level shows.
    method FetchCoin(o: OutPoint) returns (found: bool)
      requires Valid()
      modifies Repr
      ensures Valid() && Levels() == old(Levels())
      ensures found <==> o in cacheCoins
      ensures cacheCoins == Fetched(old(Under()), old(cacheCoins), o)
      decreases Repr, 1
    {
      if o !in cacheCoins {
        var tmp := BaseGetCoin(o);
        if tmp.Some? {
          CacheAnswer(o, tmp.value);
        }
      }
      found := o in cacheCoins;
    }

    method CacheAnswer(o: OutPoint, coin: Coin)
      requires Valid() && o !in cacheCoins && Lookup(Under(), o) == Some(coin)
      modifies this
      ensures Valid() && Levels() == old(Levels())
      ensures cacheCoins == Fetched(old(Under()), old(cacheCoins), o)
    {
      CachingKeeps(Under(), cacheCoins, o);
      // A spent answer from below would be marked FRESH.
      cacheCoins := cacheCoins[o := CacheEntry(coin, false, coin.IsSpent())];
      cachedCoinsUsage := cachedCoinsUsage + coin.Usage();
      OnlyTopRewritten();
    }

    method GetCoin(o: OutPoint) returns (coin: Option<Coin>)
      requires Valid()
      modifies Repr
      ensures Valid() && Levels() == old(Levels())
      ensures coin == Lookup(View(), o)
      decreases Repr, 2
    {
      var found := FetchCoin(o);
      if found && !cacheCoins[o].coin.IsSpent() {
        return Some(cacheCoins[o].coin);
      }
      return None;
    }

    // Whether an unspent coin is visible; the answer is the plain map's.
    method HaveCoin(o: OutPoint) returns (have: bool)
      requires Valid()
      modifies Repr
      ensures Valid() && Levels() == old(Levels())
      ensures have <==> o in View()
    {
      var found := FetchCoin(o);
      have := found && !cacheCoins[o].coin.IsSpent();
    }

    // The answer is cached in every level that had recorded none.
    method GetBestBlock() returns (hash: nat)
      requires Valid()
      modifies Repr
      ensures Valid() && hash == BestOf(old(Levels())) == BestOf(Levels())
      ensures Levels() == BestFilled(old(Levels()))
      decreases Repr, 1
    {
      if hashBlock == NULL_HASH {
        hash := BaseBestBlock();
        label Asked:
        hashBlock := hash;
        OnlyTopRewritten@Asked();
      }
      hash := hashBlock;
    }

    // base->GetBestBlock: the call lands in the database or in the cache below.
    method BaseBestBlock() returns (hash: nat)
      requires Valid()
      modifies Repr
      ensures Valid() && cacheCoins == old(cacheCoins) && hashBlock == old(hashBlock) && View() == old(View())
      ensures var lower := old(Levels())[..|old(Levels())| - 1];
              hash == BestOf(lower) == BestOf(BestFilled(lower)) && Levels() == BestFilled(lower) + [old(Levels())[|lower|]]
      decreases Repr, 0
    {
      ghost var levels := Levels();
      assert levels[..|levels| - 1] == if base == null then [Level(db.coins, db.bestBlock)] else base.Levels();
      if base == null {
        assert BestOf([Level(db.coins, db.bestBlock)]) == db.bestBlock by { assert BestOf([]) == NULL_HASH; }
        hash := db.bestBlock;
      } else {
        hash := base.GetBestBlock();
      }
    }

    method SetBestBlock(hash: nat)
      requires Valid()
      modifies this
      ensures Valid() && Levels() == WithTop(old(Levels()), Level(old(View()), hash))
    {
      hashBlock := hash;
      OnlyTopRewritten();
    }

    // False models the "Adding new coin that replaces non-pruned entry" exception,
    // which leaves the usage short by the size of the coin it would have replaced.
    method AddCoin(o: OutPoint, coin: Coin, possibleOverwrite: bool) returns (ok: bool)
      requires Valid() && !coin.IsSpent()
      modifies this
      ensures ok <==> coin.out.IsUnspendable() || !AddThrows(old(cacheCoins), o, possibleOverwrite)
      ensures Valid() <==>
              || coin.out.IsUnspendable()
              || (ok && (possibleOverwrite || o in old(cacheCoins) || o !in old(Under())))
              || (!ok && old(cacheCoins)[o].coin.Usage() == 0)
      ensures ok && Valid() ==>
              Levels() == WithTop(old(Levels()), Level(PlainAdd(old(View()), o, coin), old(hashBlock)))
    {
      if coin.out.IsUnspendable() {
        return true;
      }
      var inserted := o !in cacheCoins;
      var entry := EntryOrDefault(cacheCoins, o);
      if !inserted {
        cachedCoinsUsage := cachedCoinsUsage - entry.coin.Usage();
      }
      var isFresh := false;
      if !possibleOverwrite {
        if !entry.coin.IsSpent() {
          OnlyTopRewritten();
          return false;
        }
        isFresh := !entry.isDirty;
      }
      AddKeeps(Under(), cacheCoins, o, coin, possibleOverwrite);
      UsageAfterWrite(cacheCoins, o, CacheEntry(coin, true, entry.isFresh || isFresh));
      cacheCoins := cacheCoins[o := CacheEntry(coin, true, entry.isFresh || isFresh)];
      cachedCoinsUsage := cachedCoinsUsage + coin.Usage();
      OnlyTopRewritten();
      return true;
    }

    // A coin that was visible is handed out and no longer visible; nothing else is
    // seen to change. The return value also says true for a coin this cache already
    // holds as spent.
    method SpendCoin(o: OutPoint) returns (spent: bool, moveout: Coin)
      requires Valid()
      modifies Repr
      ensures Valid() && Levels() == WithTop(old(Levels()), Level(old(View()) - {o}, old(hashBlock)))
      ensures spent <==> o in old(View()) || o in old(cacheCoins)
      ensures o in old(View()) ==> moveout == old(View())[o]
      ensures spent && o !in old(View()) ==> moveout.IsSpent()
    {
      hide Consistent, Overlay, TotalUsage, AllUnspent, Fetched;
      FetchedShows(Under(), cacheCoins, o);
      ghost var levels, view := Levels(), View();
      moveout := CLEARED;
      spent := FetchCoin(o);
      if spent {
        moveout := SpendCached(o);
      } else {
        assert view - {o} == view;
        SameTop(levels);
      }
    }

    method SpendCached(o: OutPoint) returns (moveout: Coin)
      requires Valid() && o in cacheCoins
      modifies this
      ensures Valid() && Levels() == WithTop(old(Levels()), Level(old(View()) - {o}, old(hashBlock)))
      ensures moveout == old(cacheCoins)[o].coin
    {
      SpendKeeps(Under(), cacheCoins, o);
      moveout := cacheCoins[o].coin;
      cachedCoinsUsage := cachedCoinsUsage - moveout.Usage();
      if cacheCoins[o].isFresh {
        cacheCoins := cacheCoins - {o};
      } else {
        cacheCoins := cacheCoins[o := CacheEntry(CLEARED, true, cacheCoins[o].isFresh)];
      }
      OnlyTopRewritten();
    }

    // An unmodified entry may be dropped at any time.
    method Uncache(o: OutPoint)
      requires Valid()
      modifies this
      ensures Valid() && Levels() == old(Levels())
      ensures cacheCoins == if o in old(cacheCoins) && !old(cacheCoins)[o].isDirty then old(cacheCoins) - {o} else old(cacheCoins)
    {
      if o in cacheCoins && !cacheCoins[o].isDirty && !cacheCoins[o].isFresh {
        UsageWithout(cacheCoins, o);
        UncachingKeeps(Under(), cacheCoins, o);
        cachedCoinsUsage := cachedCoinsUsage - cacheCoins[o].coin.Usage();
        cacheCoins := cacheCoins - {o};
        OnlyTopRewritten();
      } else if o in cacheCoins {
        assert EntryOk(Under(), o, cacheCoins[o]);
      }
    }

    // False models the "FRESH flag misapplied" exception. A batch that is honest
    // about this view never raises it, and afterwards this level shows the batch.
    method BatchWrite(mapCoins: Entries, hashBlockIn: nat) returns (ok: bool)
      requires Valid()
      modifies this
      ensures ok <==> forall o :: o in mapCoins ==> MergeEntry(old(cacheCoins), o, mapCoins[o]).Merged?
      ensures Consistent(old(View()), mapCoins) ==>
              && ok && Valid()
              && Levels() == WithTop(old(Levels()), Level(Overlay(old(View()), mapCoins), hashBlockIn))
    {
      hide Consistent, Overlay, TotalUsage, AllUnspent, MergeEntry, Merging, Shows;
      ghost var under, view, honest := Under(), View(), Consistent(View(), mapCoins);
      var todo := mapCoins;
      ghost var done: Entries := map[];
      MergingStarts(cacheCoins, mapCoins);
      assert Shows(under, cacheCoins, view, done) by { ShowsStarts(under, cacheCoins); }
      while todo != map[]
        invariant Merging(old(cacheCoins), cacheCoins, mapCoins, todo, done)
        invariant honest ==> Shows(under, cacheCoins, view, done)
        invariant cachedCoinsUsage == TotalUsage(cacheCoins)
        decreases todo.Keys
      {
        var o :| o in todo;
        MergingNext(old(cacheCoins), cacheCoins, mapCoins, todo, done, o);
        if honest {
          ShowsNext(under, cacheCoins, view, mapCoins, done, o);
        }
        var merged := MergeOne(o, todo[o]);
        if !merged {
          return false;
        }
        done := done[o := mapCoins[o]];
        todo := todo - {o};
      }
      MergingEnds(old(cacheCoins), cacheCoins, mapCoins, done);
      hashBlock := hashBlockIn;
      OnlyTopRewritten();
      if honest {
        ShowsMeans(under, cacheCoins, view, done);
      }
      return true;
    }

    // The body of BatchWrite's loop.
    method MergeOne(o: OutPoint, child: CacheEntry) returns (ok: bool)
      requires cachedCoinsUsage == TotalUsage(cacheCoins)
      modifies this
      ensures ok <==> MergeEntry(old(cacheCoins), o, child).Merged?
      ensures ok ==> cacheCoins == MergeEntry(old(cacheCoins), o, child).entries
      ensures cachedCoinsUsage == TotalUsage(cacheCoins) && hashBlock == old(hashBlock)
    {
      if !child.isDirty {
        return true;
      }
      if o !in cacheCoins {
        if !(child.isFresh && child.coin.IsSpent()) {
          UsageAfterWrite(cacheCoins, o, CacheEntry(child.coin, true, child.isFresh));
          cacheCoins := cacheCoins[o := CacheEntry(child.coin, true, child.isFresh)];
          cachedCoinsUsage := cachedCoinsUsage + child.coin.Usage();
        }
      } else {
        if child.isFresh && !cacheCoins[o].coin.IsSpent() {
          return false;
        }
        if cacheCoins[o].isFresh && child.coin.IsSpent() {
          UsageWithout(cacheCoins, o);
          cachedCoinsUsage := cachedCoinsUsage - cacheCoins[o].coin.Usage();
          cacheCoins := cacheCoins - {o};
        } else {
          UsageAfterWrite(cacheCoins, o, CacheEntry(child.coin, true, cacheCoins[o].isFresh));
          cachedCoinsUsage := cachedCoinsUsage - cacheCoins[o].coin.Usage();
          cacheCoins := cacheCoins[o := CacheEntry(child.coin, true, cacheCoins[o].isFresh)];
          cachedCoinsUsage := cachedCoinsUsage + child.coin.Usage();
        }
      }
      return true;
    }

    // Flushing pushes everything one level down: the level below now shows what this
    // one shows, and this cache is empty. The exception is never raised.
    method Flush() returns (ok: bool)
      requires Valid()
      requires base == null ==> hashBlock != NULL_HASH
      modifies Repr
      ensures ok && Valid() && cacheCoins == map[] && cachedCoinsUsage == 0
      ensures Levels() == Flushed(old(Levels()))
    {
      if base == null {
        FlushToDB();
        ok := true;
      } else {
        ok := FlushToCache();
      }
    }

    method FlushToDB()
      requires Valid() && base == null && hashBlock != NULL_HASH
      modifies this, db
      ensures Valid() && cacheCoins == map[] && cachedCoinsUsage == 0
      ensures Levels() == Flushed(old(Levels()))
    {
      db.BatchWrite(cacheCoins, hashBlock);
      cacheCoins := map[];
      cachedCoinsUsage := 0;
      assert Overlay(Under(), map[]) == Under();
    }

    method FlushToCache() returns (ok: bool)
      requires Valid() && base != null
      modifies Repr
      ensures ok && Valid() && cacheCoins == map[] && cachedCoinsUsage == 0
      ensures Levels() == Flushed(old(Levels()))
    {
      hide Consistent, Overlay, TotalUsage, AllUnspent, WithTop, Flushed;
      ghost var below, top := base.Levels(), Level(View(), hashBlock);
      FlushedTop(below, top);
      assert Levels() == below + [top];
      ok := base.BatchWrite(cacheCoins, hashBlock);
      label Merged:
      cacheCoins := map[];
      cachedCoinsUsage := 0;
      EmptyOverBase@Merged();
    }

    twostate lemma EmptyOverBase()
      requires this in Repr && db in Repr && base != null && base in Repr && base.Repr <= Repr
      requires this !in base.Repr && base.db == db && old(base.Valid())
      requires unchanged(base.Repr) && cacheCoins == map[] && cachedCoinsUsage == 0
      ensures Valid() && Levels() == old(base.Levels()) + [Level(old(base.View()), hashBlock)]
    {
      OverlayUnspent(base.Under(), base.cacheCoins);
      assert Overlay(Under(), map[]) == Under();
    }
  }

  // ---- the plain-map reading of a stack ----

  function PlainAdd(coins: Coins, o: OutPoint, coin: Coin): Coins {
    if coin.out.IsUnspendable() then coins else coins[o := coin]
  }

  function Flushed(levels: seq<Level>): seq<Level>
    requires |levels| >= 2
  {
    var top := levels[|levels| - 1];
    levels[..|levels| - 2] + [top, top]
  }

  // An output is entered unless its script begins with 0x6a or is longer than 10000 bytes.
  lemma OnlySpendableSeen(coins: Coins, o: OutPoint, coin: Coin)
    ensures var script := coin.out.script;
            PlainAdd(coins, o, coin) ==
            if |script| > 10000 || (script != [] && script[0] == 0x6a) then coins else coins[o := coin]
  {
  }

  lemma FlushedTop(below: seq<Level>, top: Level)
    requires below != []
    ensures Flushed(below + [top]) == WithTop(below, top) + [top]
    ensures WithTop(below, top)[|WithTop(below, top)| - 1] == top && |WithTop(below, top)| == |below|
  {
  }

  // Flushing keeps the best block that is seen exactly when this level recorded
  // one, or the level below recorded nothing that differs from what lies beneath it.
  lemma FlushKeepsBestBlock(levels: seq<Level>)
    requires |levels| >= 2
    ensures BestOf(Flushed(levels)) == BestOf(levels) <==>
            || levels[|levels| - 1].hash != NULL_HASH
            || BestOf(levels[..|levels| - 1]) == BestOf(levels[..|levels| - 2])
  {
    var n := |levels|;
    var flushed := Flushed(levels);
    assert flushed[..n - 1][..n - 2] == levels[..n - 2];
    assert flushed[..n - 1] == levels[..n - 2] + [levels[n - 1]];
  }

  // ---- adding the outputs of a transaction ----

  datatype Tx = Tx(id: nat, isCoinBase: bool, vout: seq<TxOut>)

  // The plain map after adding the first k outputs.
  function WithOutputs(coins: Coins, tx: Tx, height: nat, k: nat): Coins
    requires k <= |tx.vout|
  {
    if k == 0 then coins
    else PlainAdd(WithOutputs(coins, tx, height, k - 1), OutPoint(tx.id, k - 1),
                  Coin(tx.vout[k - 1], height, tx.isCoinBase))
  }

  lemma {:induction false} LaterOutputsUntouched(coins: Coins, tx: Tx, height: nat, k: nat, o: OutPoint)
    requires k <= |tx.vout| && (o.hash != tx.id || o.n >= k)
    ensures Lookup(WithOutputs(coins, tx, height, k), o) == Lookup(coins, o)
  {
    if k > 0 {
      LaterOutputsUntouched(coins, tx, height, k - 1, o);
    }
  }

  // Without `check` the caller vouches that only a coinbase can overwrite; with it
  // the cache is asked. Either way every output is added and no exception is raised.
  method AddCoins(cache: CoinsViewCache, tx: Tx, height: nat, check: bool) returns (ok: bool)
    requires cache.Valid() && (forall i :: 0 <= i < |tx.vout| ==> !tx.vout[i].IsNull())
    requires check || tx.isCoinBase ||
             forall i: nat :: i < |tx.vout| && !tx.vout[i].IsUnspendable() ==> OutPoint(tx.id, i) !in cache.View()
    modifies cache.Repr
    ensures ok && cache.Valid()
    ensures cache.Levels() == WithTop(old(cache.Levels()),
                                      Level(WithOutputs(old(cache.View()), tx, height, |tx.vout|), old(cache.hashBlock)))
  {
    hide CoinsViewCache.Valid, CoinsViewCache.View, CoinsViewCache.Levels, PlainAdd;
    ok := true;
    ghost var before, view := cache.Levels(), cache.View();
    var i: nat := 0;
    while i < |tx.vout|
      invariant i <= |tx.vout| && ok && cache.Valid()
      invariant cache.Levels() == WithTop(before, Level(WithOutputs(view, tx, height, i), old(cache.hashBlock)))
    {
      LaterOutputsUntouched(view, tx, height, i, OutPoint(tx.id, i));
      ok := AddOutput(cache, tx, height, check, i);
      i := i + 1;
    }
  }

  method AddOutput(cache: CoinsViewCache, tx: Tx, height: nat, check: bool, i: nat) returns (ok: bool)
    requires cache.Valid() && i < |tx.vout| && !tx.vout[i].IsNull()
    requires check || tx.isCoinBase || tx.vout[i].IsUnspendable() || OutPoint(tx.id, i) !in cache.View()
    modifies cache.Repr
    ensures ok && cache.Valid()
    ensures cache.Levels() == WithTop(old(cache.Levels()),
              Level(PlainAdd(old(cache.View()), OutPoint(tx.id, i), Coin(tx.vout[i], height, tx.isCoinBase)), old(cache.hashBlock)))
  {
    var o, coin := OutPoint(tx.id, i), Coin(tx.vout[i], height, tx.isCoinBase);
    var overwrite := tx.isCoinBase;
    if check {
      overwrite := cache.HaveCoin(o);
    }
    ok := AddOne(cache, o, coin, overwrite);
  }

  // AddCoin, for a caller that keeps its side.
  method AddOne(cache: CoinsViewCache, o: OutPoint, coin: Coin, overwrite: bool) returns (ok: bool)
    requires cache.Valid() && Allowed(cache.Levels(), Add(o, coin, overwrite))
    modifies cache
    ensures ok && cache.Valid()
    ensures cache.Levels() == Step(old(cache.Levels()), Add(o, coin, overwrite))
  {
    assert o in cache.cacheCoins && !cache.cacheCoins[o].coin.IsSpent() ==> o in cache.View();
    ok := cache.AddCoin(o, coin, overwrite);
  }

  // ---- runs over a stack that grows, shrinks and flushes at its top ----

  datatype Op =
    | Get(o: OutPoint)
    | Have(o: OutPoint)
    | Add(o: OutPoint, coin: Coin, possibleOverwrite: bool)
    | Spend(o: OutPoint)
    | Uncache(o: OutPoint)
    | SetBest(hash: nat)
    | Flush
    | Push      // put an empty cache on top
    | Discard   // drop the top cache without flushing it

  datatype Seen = Nothing | SeenCoin(coin: Option<Coin>) | SeenBool(b: bool)

  // What each call demands of its caller.
  predicate Allowed(levels: seq<Level>, op: Op)
    requires |levels| >= 2
  {
    var top := levels[|levels| - 1];
    match op
    case Add(o, coin, overwrite) =>
      !coin.IsSpent() && (overwrite || coin.out.IsUnspendable() || o !in top.view)
    case Flush => |levels| > 2 || top.hash != NULL_HASH
    case Discard => |levels| > 2
    case _ => true
  }

  // One operation on plain maps.
  function Step(levels: seq<Level>, op: Op): (next: seq<Level>)
    requires |levels| >= 2 && Allowed(levels, op)
    ensures |next| >= 2
  {
    var top := levels[|levels| - 1];
    match op
    case Get(_) => levels
    case Have(_) => levels
    case Uncache(_) => levels
    case Add(o, coin, _) => WithTop(levels, Level(PlainAdd(top.view, o, coin), top.hash))
    case Spend(o) => WithTop(levels, Level(top.view - {o}, top.hash))
    case SetBest(hash) => WithTop(levels, Level(top.view, hash))
    case Flush => Flushed(levels)
    case Push => levels + [Level(top.view, NULL_HASH)]
    case Discard => levels[..|levels| - 1]
  }

  function Answer(levels: seq<Level>, op: Op): Seen
    requires |levels| >= 2
  {
    var top := levels[|levels| - 1].view;
    match op
    case Get(o) => SeenCoin(Lookup(top, o))
    case Have(o) => SeenBool(o in top)
    case Spend(o) => SeenCoin(Lookup(top, o))
    case _ => Nothing
  }

  predicate Legal(levels: seq<Level>, ops: seq<Op>)
    requires |levels| >= 2
    decreases ops
  {
    ops == [] || (Allowed(levels, ops[0]) && Legal(Step(levels, ops[0]), ops[1..]))
  }

  function Steps(levels: seq<Level>, ops: seq<Op>): (next: seq<Level>)
    requires |levels| >= 2 && Legal(levels, ops)
    ensures |next| >= 2
    decreases ops
  {
    if ops == [] then levels else Steps(Step(levels, ops[0]), ops[1..])
  }

  function Answers(levels: seq<Level>, ops: seq<Op>): seq<Seen>
    requires |levels| >= 2 && Legal(levels, ops)
    decreases ops
  {
    if ops == [] then [] else [Answer(levels, ops[0])] + Answers(Step(levels, ops[0]), ops[1..])
  }

  // One operation on the real stack. No call throws.
  method Do(cache: CoinsViewCache, op: Op) returns (top: CoinsViewCache, seen: Seen)
    requires cache.Valid() && Allowed(cache.Levels(), op)
    modifies cache.Repr
    ensures top.Valid() && fresh(top.Repr - cache.Repr)
    ensures top.Levels() == Step(old(cache.Levels()), op)
    ensures seen == Answer(old(cache.Levels()), op)
  {
    top, seen := cache, Nothing;
    match op {
      case Get(o) =>
        var coin := cache.GetCoin(o);
        seen := SeenCoin(coin);
      case Have(o) =>
        var have := cache.HaveCoin(o);
        seen := SeenBool(have);
      case Add(o, coin, overwrite) =>
        var ok := AddOne(cache, o, coin, overwrite);
        assert ok;
      case Spend(o) =>
        var spent, moveout := cache.SpendCoin(o);
        seen := SeenCoin(if spent && !moveout.IsSpent() then Some(moveout) else None);
        assert o in old(cache.View()) ==> !old(cache.View())[o].IsSpent();
      case Uncache(o) =>
        cache.Uncache(o);
      case SetBest(hash) =>
        cache.SetBestBlock(hash);
      case Flush =>
        var ok := cache.Flush();
        assert ok;
      case Push =>
        top := new CoinsViewCache(cache, cache.db);
      case Discard =>
        top := cache.base;
    }
  }

  // Every legal run over a stack of any depth answers, and leaves every level
  // showing, what the same run does on plain maps.
  method Run(cache: CoinsViewCache, ops: seq<Op>) returns (top: CoinsViewCache, seen: seq<Seen>)
    requires cache.Valid() && Legal(cache.Levels(), ops)
    modifies cache.Repr
    ensures top.Valid() && fresh(top.Repr - cache.Repr)
    ensures top.Levels() == Steps(old(cache.Levels()), ops)
    ensures seen == Answers(old(cache.Levels()), ops)
  {
    top, seen := cache, [];
    if ops != [] {
      var next, first := Do(cache, ops[0]);
      var rest;
      top, rest := Run(next, ops[1..]);
      seen := [first] + rest;
    }
  }

  // ---- a cache on top works as a transaction ----

  predicate Local(op: Op) {
    op.Get? || op.Have? || op.Add? || op.Spend? || op.Uncache? || op.SetBest?
  }

  // Local operations leave the lower levels alone, and what they answer and leave
  // in view depends only on the coins the top level shows.
  lemma {:induction false} LocalRun(below: seq<Level>, top: Level, other: seq<Level>, top': Level, ops: seq<Op>)
    requires below != [] && other != [] && top.view == top'.view
    requires Legal(below + [top], ops) && (forall op :: op in ops ==> Local(op))
    ensures Legal(other + [top'], ops)
    ensures Answers(other + [top'], ops) == Answers(below + [top], ops)
    ensures var a, b := Steps(below + [top], ops), Steps(other + [top'], ops);
            && |a| == |below| + 1 && a[..|below|] == below
            && |b| == |other| + 1 && b[..|other|] == other
            && a[|below|].view == b[|other|].view
    decreases ops
  {
    if ops != [] {
      assert Local(ops[0]);
      var a, b := Step(below + [top], ops[0]), Step(other + [top'], ops[0]);
      assert a == below + [a[|below|]] && b == other + [b[|other|]];
      LocalRun(below, a[|below|], other, b[|other|], ops[1..]);
    }
  }

  lemma {:induction false} RunThen(levels: seq<Level>, first: seq<Op>, second: seq<Op>)
    requires |levels| >= 2 && Legal(levels, first) && Legal(Steps(levels, first), second)
    ensures Legal(levels, first + second)
    ensures Steps(levels, first + second) == Steps(Steps(levels, first), second)
    decreases first
  {
    if first == [] {
      assert first + second == second;
    } else {
      assert (first + second)[1..] == first[1..] + second;
      RunThen(Step(levels, first[0]), first[1..], second);
    }
  }

  // Committing: working in a fresh cache, recording a block, flushing and dropping
  // it leaves every level as if the work had been done one level down.
  lemma CommitLaw(levels: seq<Level>, ops: seq<Op>, hash: nat)
    requires |levels| >= 2 && (forall op :: op in ops ==> Local(op)) && Legal(levels, ops)
    ensures Legal(levels, [Push] + (ops + [SetBest(hash), Flush, Discard]))
    ensures Legal(levels, ops + [SetBest(hash)])
    ensures Steps(levels, [Push] + (ops + [SetBest(hash), Flush, Discard])) == Steps(levels, ops + [SetBest(hash)])
  {
    var n, tail := |levels|, [SetBest(hash), Flush, Discard];
    var top, pushed := levels[n - 1], Step(levels, Push);
    assert levels == levels[..n - 1] + [top];
    LocalRun(levels[..n - 1], top, levels, Level(top.view, NULL_HASH), ops);
    var direct, work := Steps(levels, ops), Steps(pushed, ops);
    CommitTail(work, direct, hash);
    RunThen(pushed, ops, tail);
    RunThen(levels, ops, [SetBest(hash)]);
    PushFirst(levels, ops + tail);
  }

  lemma PushFirst(levels: seq<Level>, ops: seq<Op>)
    requires |levels| >= 2 && Legal(Step(levels, Push), ops)
    ensures Legal(levels, [Push] + ops)
    ensures Steps(levels, [Push] + ops) == Steps(Step(levels, Push), ops)
  {
    assert ([Push] + ops)[1..] == ops;
  }

  lemma CommitTail(work: seq<Level>, direct: seq<Level>, hash: nat)
    requires |direct| >= 2 && |work| == |direct| + 1
    requires work[..|direct| - 1] == direct[..|direct| - 1]
    requires work[|direct|].view == direct[|direct| - 1].view
    ensures Legal(work, [SetBest(hash), Flush, Discard]) && Legal(direct, [SetBest(hash)])
    ensures Steps(work, [SetBest(hash), Flush, Discard]) == Steps(direct, [SetBest(hash)])
  {
    var marked := Step(work, SetBest(hash));
    assert [SetBest(hash), Flush, Discard][1..] == [Flush, Discard];
    assert [Flush, Discard][1..] == [Discard];
    assert Steps(marked, [Flush, Discard]) == Steps(Step(marked, Flush), [Discard]);
    assert Step(Step(marked, Flush), Discard) == Step(direct, SetBest(hash));
    assert Steps(direct, [SetBest(hash)]) == Step(direct, SetBest(hash));
  }

  // Rolling back: whatever was done in a fresh cache, dropping it undoes it all.
  lemma RollbackLaw(levels: seq<Level>, ops: seq<Op>)
    requires |levels| >= 2 && (forall op :: op in ops ==> Local(op)) && Legal(Step(levels, Push), ops)
    ensures Legal(levels, [Push] + (ops + [Discard]))
    ensures Steps(levels, [Push] + (ops + [Discard])) == levels
  {
    var pushed := Step(levels, Push);
    var top := pushed[|pushed| - 1];
    assert pushed == levels + [top];
    LocalRun(levels, top, levels, top, ops);
    RunThen(pushed, ops, [Discard]);
    PushFirst(levels, ops + [Discard]);
  }
}
