// Choosing transactions for a block (src/miner.cpp, src/miner.h) over a memory pool
// whose entries form a directed acyclic graph (src/txmempool.cpp).

module MinerPool {

  type Tx = nat

  // The entries of the pool: their parents and children, what each costs, and the
  // totals over each entry and its ancestors that the pool caches.
  datatype Pool = Pool(
    txs: set<Tx>, parents: map<Tx, set<Tx>>, children: map<Tx, set<Tx>>,
    size: map<Tx, int>, weight: map<Tx, int>, sigOps: map<Tx, int>, fee: map<Tx, int>, modFee: map<Tx, int>,
    countAll: map<Tx, int>, sizeAll: map<Tx, int>, sigOpsAll: map<Tx, int>, modFeesAll: map<Tx, int>)

  // ---- ancestors ----

  // Each element is a parent of the one before it.
  ghost predicate Path(pool: Pool, p: seq<Tx>) {
    && (forall i :: 0 <= i < |p| ==> p[i] in pool.parents)
    && (forall i :: 0 <= i < |p| - 1 ==> p[i + 1] in pool.parents[p[i]])
  }

  ghost predicate Leads(pool: Pool, p: seq<Tx>, t: Tx, a: Tx) {
    |p| >= 2 && Path(pool, p) && p[0] == t && p[|p| - 1] == a
  }

  ghost function Ancestors(pool: Pool, t: Tx): set<Tx> {
    set a | a in pool.txs && exists p :: Leads(pool, p, t, a)
  }

  ghost function Package(pool: Pool, t: Tx): set<Tx> {
    Ancestors(pool, t) + {t}
  }

  ghost function Descendants(pool: Pool, t: Tx): set<Tx> {
    set d | d in pool.txs && t in Package(pool, d)
  }

  ghost predicate GraphOk(pool: Pool) {
    && pool.parents.Keys == pool.children.Keys == pool.txs
    && (forall t :: t in pool.txs ==> pool.parents[t] <= pool.txs)
    && (forall t, c :: t in pool.txs ==> (c in pool.children[t] <==> c in pool.txs && t in pool.parents[c]))
    && (forall t :: t in pool.txs ==> t !in Ancestors(pool, t))
  }

  lemma {:induction false} ParentIsAncestor(pool: Pool, t: Tx, a: Tx)
    requires GraphOk(pool) && t in pool.txs && a in pool.parents[t]
    ensures a in Ancestors(pool, t)
  {
    assert Leads(pool, [t, a], t, a);
  }

  lemma {:induction false} AncestorTransitive(pool: Pool, t: Tx, a: Tx, b: Tx)
    requires a in Ancestors(pool, t) && b in Ancestors(pool, a)
    ensures b in Ancestors(pool, t)
  {
    var p :| Leads(pool, p, t, a);
    var q :| Leads(pool, q, a, b);
    var r := p + q[1..];
    forall i | 0 <= i < |r| - 1
      ensures r[i + 1] in pool.parents[r[i]]
    {
      if i >= |p| - 1 {
        assert r[i] == q[i - (|p| - 1)];
        assert r[i + 1] == q[i + 1 - (|p| - 1)];
      }
    }
    assert Leads(pool, r, t, b);
  }

  // A set closed under parents that holds the parents of t holds its ancestors.
  lemma {:induction false} ClosedHoldsAncestors(pool: Pool, t: Tx, closed: set<Tx>, p: seq<Tx>, a: Tx)
    requires GraphOk(pool) && Leads(pool, p, t, a)
    requires pool.parents[t] <= closed
    requires forall x :: x in closed && x in pool.parents ==> pool.parents[x] <= closed
    ensures a in closed
    decreases p
  {
    if |p| > 2 {
      var q := p[..|p| - 1];
      assert Leads(pool, q, t, q[|q| - 1]);
      ClosedHoldsAncestors(pool, t, closed, q, q[|q| - 1]);
    }
  }

  // The worklist of CalculateMemPoolAncestors finds the transitive closure.
  method CalculateAncestors(pool: Pool, t: Tx) returns (found: set<Tx>)
    requires GraphOk(pool) && t in pool.txs
    ensures found == Ancestors(pool, t)
  {
    found := {};
    var stage := pool.parents[t];
    forall a | a in stage
      ensures a in Ancestors(pool, t)
    {
      ParentIsAncestor(pool, t, a);
    }
    while exists a :: a in stage
      invariant found + stage <= Ancestors(pool, t) && found !! stage
      invariant pool.parents[t] <= found + stage
      invariant forall x :: x in found ==> x in pool.parents && pool.parents[x] <= found + stage
      decreases pool.txs - found
    {
      var a :| a in stage;
      forall b | b in pool.parents[a]
        ensures b in Ancestors(pool, t)
      {
        ParentIsAncestor(pool, a, b);
        AncestorTransitive(pool, t, a, b);
      }
      found, stage := found + {a}, stage - {a};
      stage := stage + (pool.parents[a] - found);
    }
    forall a | a in Ancestors(pool, t)
      ensures a in found
    {
      var p :| Leads(pool, p, t, a);
      ClosedHoldsAncestors(pool, t, found, p, a);
    }
  }

  // A set closed under children that holds t holds its descendants.
  lemma {:induction false} ClosedHoldsDescendants(pool: Pool, t: Tx, closed: set<Tx>, p: seq<Tx>, d: Tx)
    requires GraphOk(pool) && Leads(pool, p, d, t) && t in closed
    requires forall x :: x in closed && x in pool.children ==> pool.children[x] <= closed
    ensures d in closed
    decreases p
  {
    assert p[1] in pool.parents[d];
    if |p| > 2 {
      assert Leads(pool, p[1..], p[1], t);
      ClosedHoldsDescendants(pool, t, closed, p[1..], p[1]);
    }
    assert d in pool.children[p[1]];
  }

  // The worklist of CalculateDescendants, started from an empty set.
  method CalculateDescendants(pool: Pool, t: Tx) returns (found: set<Tx>)
    requires GraphOk(pool) && t in pool.txs
    ensures found == Descendants(pool, t)
  {
    found := {};
    var stage := {t};
    while exists a :: a in stage
      invariant found + stage <= Descendants(pool, t) && found !! stage
      invariant t in found + stage
      invariant forall x :: x in found ==> x in pool.children && pool.children[x] <= found + stage
      decreases pool.txs - found
    {
      var a :| a in stage;
      forall b | b in pool.children[a]
        ensures b in Descendants(pool, t)
      {
        ParentIsAncestor(pool, b, a);
        if a != t {
          AncestorTransitive(pool, b, a, t);
        }
      }
      found, stage := found + {a}, stage - {a};
      stage := stage + (pool.children[a] - found);
    }
    forall d | d in Descendants(pool, t)
      ensures d in found
    {
      if d != t {
        var p :| Leads(pool, p, d, t);
        ClosedHoldsDescendants(pool, t, found, p, d);
      }
    }
  }

  // ---- sums over sets of entries ----

  function At(m: map<Tx, int>, x: Tx): int {
    if x in m then m[x] else 0
  }

  ghost function Sum(m: map<Tx, int>, s: set<Tx>): int {
    if s == {} then 0
    else
      var x :| x in s;
      At(m, x) + Sum(m, s - {x})
  }

  lemma {:induction false} SumWithout(m: map<Tx, int>, s: set<Tx>, x: Tx)
    requires x in s
    ensures Sum(m, s) == At(m, x) + Sum(m, s - {x})
  {
    var y :| y in s && Sum(m, s) == At(m, y) + Sum(m, s - {y});
    if y != x {
      SumWithout(m, s - {y}, x);
      SumWithout(m, s - {x}, y);
      assert s - {y} - {x} == s - {x} - {y};
    }
  }

  lemma {:induction false} SumSplit(m: map<Tx, int>, a: set<Tx>, b: set<Tx>)
    requires a !! b
    ensures Sum(m, a + b) == Sum(m, a) + Sum(m, b)
  {
    if x :| x in a {
      SumWithout(m, a + b, x);
      SumWithout(m, a, x);
      assert a + b - {x} == (a - {x}) + b;
      SumSplit(m, a - {x}, b);
    } else {
      assert a == {} && a + b == b;
    }
  }

  lemma {:induction false} SumNonNegative(m: map<Tx, int>, s: set<Tx>)
    requires forall x :: x in m ==> m[x] >= 0
    ensures Sum(m, s) >= 0
  {
    if x :| x in s {
      SumWithout(m, s, x);
      SumNonNegative(m, s - {x});
    } else {
      assert s == {};
    }
  }

  // ---- the pool's own promises ----

  const WITNESS_SCALE_FACTOR := 4

  ghost predicate KeysOk(pool: Pool) {
    && pool.size.Keys == pool.weight.Keys == pool.sigOps.Keys == pool.fee.Keys == pool.modFee.Keys == pool.txs
    && pool.countAll.Keys == pool.sizeAll.Keys == pool.sigOpsAll.Keys == pool.modFeesAll.Keys == pool.txs
  }

  // Virtual size is at least a quarter of the weight, rounded up.
  ghost predicate CostsOk(pool: Pool)
    requires KeysOk(pool)
  {
    forall t :: t in pool.txs ==>
      0 <= pool.weight[t] <= WITNESS_SCALE_FACTOR * pool.size[t] && pool.size[t] > 0 && pool.sigOps[t] >= 0
  }

  // The cached totals are those of the entry and all its ancestors.
  ghost predicate TotalsOk(pool: Pool)
    requires KeysOk(pool)
  {
    forall t :: t in pool.txs ==>
      && pool.countAll[t] == |Package(pool, t)|
      && pool.sizeAll[t] == Sum(pool.size, Package(pool, t))
      && pool.sigOpsAll[t] == Sum(pool.sigOps, Package(pool, t))
      && pool.modFeesAll[t] == Sum(pool.modFee, Package(pool, t))
  }

  ghost predicate PoolOk(pool: Pool) {
    GraphOk(pool) && KeysOk(pool) && CostsOk(pool) && TotalsOk(pool)
  }

  // An ancestor has fewer ancestors: sorting by their number sorts by dependency.
  lemma {:induction false} AncestorCountsLess(pool: Pool, t: Tx, a: Tx)
    requires PoolOk(pool) && t in pool.txs && a in Ancestors(pool, t)
    ensures pool.countAll[a] < pool.countAll[t]
  {
    assert Package(pool, a) <= Ancestors(pool, t) by { PackageWithin(pool, t, a); }
    Smaller(Package(pool, a), Package(pool, t), t);
  }

  lemma {:induction false} PackageWithin(pool: Pool, t: Tx, a: Tx)
    requires a in Ancestors(pool, t)
    ensures Package(pool, a) <= Ancestors(pool, t)
  {
    forall b | b in Package(pool, a)
      ensures b in Ancestors(pool, t)
    {
      if b != a {
        AncestorTransitive(pool, t, a, b);
      }
    }
  }

  lemma {:induction false} Smaller(a: set<Tx>, b: set<Tx>, x: Tx)
    requires a <= b && x in b && x !in a
    ensures |a| < |b|
  {
    assert b == a + (b - a);
    assert x in b - a;
  }

  // Four times the virtual size of a set of entries covers its weight.
  lemma {:induction false} SizeCoversWeight(pool: Pool, s: set<Tx>)
    requires KeysOk(pool) && CostsOk(pool) && s <= pool.txs
    ensures 0 <= Sum(pool.weight, s) <= WITNESS_SCALE_FACTOR * Sum(pool.size, s)
  {
    if x :| x in s {
      SumWithout(pool.size, s, x);
      SumWithout(pool.weight, s, x);
      SizeCoversWeight(pool, s - {x});
    } else {
      assert s == {};
    }
  }
}

module MinerPackages {
  import opened MinerPool

  // An entry of mapModifiedTx: package totals without what is in the block already.
  datatype Modified = Modified(size: int, sigOps: int, modFees: int)

  function Cached(pool: Pool, t: Tx): Modified
    requires KeysOk(pool) && t in pool.txs
  {
    Modified(pool.sizeAll[t], pool.sigOpsAll[t], pool.modFeesAll[t])
  }

  // A new entry for d once its ancestor it is included: it takes off the modified fee.
  function Inserted(pool: Pool, d: Tx, it: Tx): Modified
    requires KeysOk(pool) && d in pool.txs && it in pool.txs
  {
    Modified(pool.sizeAll[d] - pool.size[it], pool.sigOpsAll[d] - pool.sigOps[it],
             pool.modFeesAll[d] - pool.modFee[it])
  }

  // An existing entry once the ancestor it is included: it takes off the base fee.
  function Included(pool: Pool, m: Modified, it: Tx): Modified
    requires KeysOk(pool) && it in pool.txs
  {
    Modified(m.size - pool.size[it], m.sigOps - pool.sigOps[it], m.modFees - pool.fee[it])
  }

  // The totals the assembler would use for t.
  ghost function Value(pool: Pool, mod: map<Tx, Modified>, t: Tx): Modified
    requires KeysOk(pool) && t in pool.txs
  {
    if t in mod then mod[t] else Cached(pool, t)
  }

  // What a new entry takes off its fees for the entries of gone: the modified fee of the
  // first of them, and the base fees of the others.
  ghost function TakenOff(pool: Pool, gone: set<Tx>, first: Tx): int {
    At(pool.modFee, first) + Sum(pool.fee, gone - {first})
  }

  // fees account for the entries of gone, on top of fees0.
  ghost predicate FeesShifted(pool: Pool, isNew: bool, fees0: int, fees: int, gone: set<Tx>) {
    if gone == {} then fees == fees0
    else if isNew then exists first :: first in gone && fees == fees0 - TakenOff(pool, gone, first)
    else fees == fees0 - Sum(pool.fee, gone)
  }

  // mod accounts for the entries of gone, on top of mod0, in what it holds for d.
  ghost predicate Shifted(pool: Pool, mod0: map<Tx, Modified>, mod: map<Tx, Modified>, d: Tx, gone: set<Tx>)
    requires KeysOk(pool) && d in pool.txs
  {
    && (d in mod <==> d in mod0 || gone != {})
    && Value(pool, mod, d).size == Value(pool, mod0, d).size - Sum(pool.size, gone)
    && Value(pool, mod, d).sigOps == Value(pool, mod0, d).sigOps - Sum(pool.sigOps, gone)
    && FeesShifted(pool, d !in mod0, Value(pool, mod0, d).modFees, Value(pool, mod, d).modFees, gone)
  }

  // The included ancestors that d has to account for.
  ghost function Due(pool: Pool, added: set<Tx>, done: set<Tx>, d: Tx): set<Tx> {
    if d in added then {} else Ancestors(pool, d) * done
  }

  function Step(pool: Pool, mod: map<Tx, Modified>, d: Tx, it: Tx): map<Tx, Modified>
    requires KeysOk(pool) && d in pool.txs && it in pool.txs
  {
    mod[d := if d in mod then Included(pool, mod[d], it) else Inserted(pool, d, it)]
  }

  // What mod holds for d is one step on from mod0, or the same.
  ghost predicate Stepped(pool: Pool, mod0: map<Tx, Modified>, mod: map<Tx, Modified>, d: Tx, it: Tx, moved: bool)
    requires KeysOk(pool) && d in pool.txs && it in pool.txs
  {
    if moved then d in mod && mod[d] == Step(pool, mod0, d, it)[d]
    else (d in mod <==> d in mod0) && (d in mod ==> mod[d] == mod0[d])
  }

  lemma {:induction false} StepShifts(pool: Pool, mod0: map<Tx, Modified>, mod: map<Tx, Modified>, d: Tx, it: Tx, gone: set<Tx>)
    requires KeysOk(pool) && d in pool.txs && it in pool.txs && it !in gone
    requires Shifted(pool, mod0, mod, d, gone)
    ensures Shifted(pool, mod0, Step(pool, mod, d, it), d, gone + {it})
  {
    assert gone + {it} - {it} == gone;
    SumWithout(pool.size, gone + {it}, it);
    SumWithout(pool.sigOps, gone + {it}, it);
    var fees0, fees := Value(pool, mod0, d).modFees, Value(pool, mod, d).modFees;
    hide Sum;
    FeesStep(pool, d !in mod0, fees0, fees, Value(pool, Step(pool, mod, d, it), d).modFees, gone, it);
    hide FeesShifted;
  }

  lemma {:induction false} FeesStep(pool: Pool, isNew: bool, fees0: int, fees: int, fees': int, gone: set<Tx>, it: Tx)
    requires it !in gone && FeesShifted(pool, isNew, fees0, fees, gone)
    requires fees' == fees - (if isNew && gone == {} then At(pool.modFee, it) else At(pool.fee, it))
    ensures FeesShifted(pool, isNew, fees0, fees', gone + {it})
  {
    hide At, Sum;
    assert gone + {it} - {it} == gone;
    SumWithout(pool.fee, gone + {it}, it);
    if isNew {
      if gone == {} {
        assert Sum(pool.fee, {}) == 0 by { SumOfNothing(pool.fee); }
        assert fees' == fees0 - TakenOff(pool, gone + {it}, it);
      } else {
        var first :| first in gone && fees == fees0 - TakenOff(pool, gone, first);
        assert gone + {it} - {first} - {it} == gone - {first};
        SumWithout(pool.fee, gone + {it} - {first}, it);
        assert fees' == fees0 - TakenOff(pool, gone + {it}, first);
      }
    } else if gone == {} {
      assert Sum(pool.fee, {}) == 0 by { SumOfNothing(pool.fee); }
    }
  }

  lemma {:induction false} SumOfNothing(m: map<Tx, int>)
    ensures Sum(m, {}) == 0
  {
  }

  // With a prioritised ancestor the totals of the fees drift: the update takes off
  // the base fee where the insertion took off the modified one.
  lemma {:induction false} PrioritisedFeesDrift(pool: Pool, d: Tx, a: Tx, b: Tx)
    requires KeysOk(pool) && TotalsOk(pool) && d in pool.txs && a in pool.txs && b in pool.txs
    requires a in Ancestors(pool, d) && b in Ancestors(pool, d) && a != b
    ensures Included(pool, Inserted(pool, d, a), b).modFees == Sum(pool.modFee, Package(pool, d) - {a} - {b})
            <==> pool.fee[b] == pool.modFee[b]
  {
    hide Ancestors, Sum;
    SumWithout(pool.modFee, Package(pool, d), a);
    SumWithout(pool.modFee, Package(pool, d) - {a}, b);
  }

  // One entry of the added set: every descendant outside the set accounts for it.
  method UpdateForOne(pool: Pool, added: set<Tx>, it: Tx, mod0: map<Tx, Modified>) returns (mod: map<Tx, Modified>)
    requires PoolOk(pool) && it in pool.txs && it in added && mod0.Keys <= pool.txs
    ensures mod.Keys <= pool.txs
    ensures forall d :: d in pool.txs ==> Stepped(pool, mod0, mod, d, it, d !in added && it in Ancestors(pool, d))
  {
    hide GraphOk, Ancestors, CostsOk, TotalsOk, Sum;
    mod := mod0;
    var todo := CalculateDescendants(pool, it);
    ghost var all := todo;
    while exists d :: d in todo
      invariant todo <= all && mod.Keys <= pool.txs
      invariant forall d :: d in pool.txs ==> Stepped(pool, mod0, mod, d, it, d !in added && d in all - todo)
      decreases todo
    {
      var d :| d in todo;
      ghost var m1, t1 := mod, todo;
      todo := todo - {d};
      if d !in added {
        mod := Step(pool, mod, d, it);
      }
      forall e | e in pool.txs
        ensures Stepped(pool, mod0, mod, e, it, e !in added && e in all - todo)
      {
        assert Stepped(pool, mod0, m1, e, it, e !in added && e in all - t1);
      }
    }
  }

  method UpdatePackagesForAdded(pool: Pool, added: set<Tx>, mod0: map<Tx, Modified>) returns (mod: map<Tx, Modified>)
    requires PoolOk(pool) && added <= pool.txs && mod0.Keys <= pool.txs
    ensures mod.Keys <= pool.txs
    ensures forall d :: d in pool.txs ==> Shifted(pool, mod0, mod, d, Due(pool, added, added, d))
  {
    hide GraphOk, Ancestors, CostsOk, TotalsOk, Sum, Shifted;
    mod := mod0;
    var todo := added;
    forall d | d in pool.txs
      ensures Shifted(pool, mod0, mod, d, Due(pool, added, added - todo, d))
    {
      NothingDue(pool, added, mod0, d);
      assert added - todo == {};
    }
    while exists it :: it in todo
      invariant todo <= added && mod.Keys <= pool.txs
      invariant forall d :: d in pool.txs ==> Shifted(pool, mod0, mod, d, Due(pool, added, added - todo, d))
      decreases todo
    {
      var it :| it in todo;
      ghost var done := added - todo;
      ghost var m1 := mod;
      mod := UpdateForOne(pool, added, it, mod);
      todo := todo - {it};
      forall d | d in pool.txs
        ensures Shifted(pool, mod0, mod, d, Due(pool, added, added - todo, d))
      {
        OneMoreDue(pool, added, done, it, mod0, m1, mod, d);
        assert added - todo == done + {it};
      }
    }
    assert added - todo == added;
  }

  lemma {:induction false} NothingDue(pool: Pool, added: set<Tx>, mod: map<Tx, Modified>, d: Tx)
    requires KeysOk(pool) && d in pool.txs
    ensures Shifted(pool, mod, mod, d, Due(pool, added, {}, d))
  {
    assert Due(pool, added, {}, d) == {};
  }

  lemma {:induction false} OneMoreDue(pool: Pool, added: set<Tx>, done: set<Tx>, it: Tx, mod0: map<Tx, Modified>,
                                      m1: map<Tx, Modified>, m2: map<Tx, Modified>, d: Tx)
    requires KeysOk(pool) && d in pool.txs && it in pool.txs && it !in done
    requires Shifted(pool, mod0, m1, d, Due(pool, added, done, d))
    requires Stepped(pool, m1, m2, d, it, d !in added && it in Ancestors(pool, d))
    ensures Shifted(pool, mod0, m2, d, Due(pool, added, done + {it}, d))
  {
    if d !in added && it in Ancestors(pool, d) {
      assert Due(pool, added, done + {it}, d) == Due(pool, added, done, d) + {it};
      StepShifts(pool, mod0, m1, d, it, Due(pool, added, done, d));
    } else {
      assert Due(pool, added, done + {it}, d) == Due(pool, added, done, d);
    }
  }

  // ---- what the assembler knows about packages ----

  ghost function Rest(pool: Pool, inBlock: set<Tx>, t: Tx): set<Tx> {
    Package(pool, t) - inBlock
  }

  // The ancestors of t that are in the block.
  ghost function Inside(pool: Pool, inBlock: set<Tx>, t: Tx): set<Tx> {
    Ancestors(pool, t) * inBlock
  }

  // What the totals of t still count although it is in the block: the ancestors that were
  // in the block when t was dropped from mapModifiedTx.
  ghost function Excess(over: map<Tx, set<Tx>>, t: Tx): set<Tx> {
    if t in over then over[t] else {}
  }

  // The totals of t are those of the rest of its package and of the excess.
  ghost predicate Tracked(pool: Pool, mod: map<Tx, Modified>, over: map<Tx, set<Tx>>, inBlock: set<Tx>, t: Tx)
    requires KeysOk(pool) && t in pool.txs
  {
    var m, excess, inside := Value(pool, mod, t), Excess(over, t), Inside(pool, inBlock, t);
    && excess <= inside && (t in mod <==> excess != inside)
    && m.size == Sum(pool.size, Rest(pool, inBlock, t)) + Sum(pool.size, excess)
    && m.sigOps == Sum(pool.sigOps, Rest(pool, inBlock, t)) + Sum(pool.sigOps, excess)
    && FeesShifted(pool, true, Sum(pool.modFee, Package(pool, t)), m.modFees, inside - excess)
  }

  ghost predicate Tracks(pool: Pool, mod: map<Tx, Modified>, over: map<Tx, set<Tx>>, inBlock: set<Tx>)
    requires KeysOk(pool)
  {
    && mod.Keys <= pool.txs - inBlock
    && forall t :: t in pool.txs - inBlock ==> Tracked(pool, mod, over, inBlock, t)
  }

  ghost predicate Closed(pool: Pool, s: set<Tx>) {
    s <= pool.txs && forall t :: t in s ==> Ancestors(pool, t) <= s
  }

  lemma {:induction false} RestShrinks(pool: Pool, m: map<Tx, int>, inBlock: set<Tx>, added: set<Tx>, t: Tx)
    requires added !! inBlock && t !in added
    ensures Sum(m, Rest(pool, inBlock + added, t)) == Sum(m, Rest(pool, inBlock, t)) - Sum(m, Ancestors(pool, t) * added)
  {
    var gone := Ancestors(pool, t) * added;
    SumSplit(m, Rest(pool, inBlock + added, t), gone);
    assert Rest(pool, inBlock + added, t) + gone == Rest(pool, inBlock, t);
  }

  // The cached totals count the whole package, included or not.
  lemma {:induction false} CachedTracked(pool: Pool, mod: map<Tx, Modified>, over: map<Tx, set<Tx>>, inBlock: set<Tx>, t: Tx)
    requires KeysOk(pool) && TotalsOk(pool) && t in pool.txs - inBlock && t !in mod
    requires Excess(over, t) == Inside(pool, inBlock, t)
    ensures Tracked(pool, mod, over, inBlock, t)
  {
    hide Ancestors, Sum, Inside, Rest, Package, FeesShifted;
    var rest, inside := Rest(pool, inBlock, t), Inside(pool, inBlock, t);
    PackageSplits(pool, inBlock, t);
    SumSplit(pool.size, rest, inside);
    SumSplit(pool.sigOps, rest, inside);
    NoFees(pool, Cached(pool, t).modFees, inside - Excess(over, t));
    assert Value(pool, mod, t) == Cached(pool, t) && pool.modFeesAll[t] == Sum(pool.modFee, Package(pool, t));
  }

  lemma {:induction false} PackageSplits(pool: Pool, inBlock: set<Tx>, t: Tx)
    requires t !in inBlock
    ensures Rest(pool, inBlock, t) + Inside(pool, inBlock, t) == Package(pool, t)
    ensures Rest(pool, inBlock, t) !! Inside(pool, inBlock, t)
  {
    hide Ancestors;
  }

  lemma {:induction false} NoFees(pool: Pool, fees: int, gone: set<Tx>)
    requires gone == {}
    ensures FeesShifted(pool, true, fees, fees, gone)
  {
  }

  lemma {:induction false} StartTracks(pool: Pool)
    requires PoolOk(pool)
    ensures Tracks(pool, map[], map[], {})
  {
    hide GraphOk, CostsOk, TotalsOk, Cached, Tracked, Ancestors;
    forall t | t in pool.txs
      ensures Tracked(pool, map[], map[], {}, t)
    {
      CachedTracked(pool, map[], map[], {}, t);
    }
  }

  lemma {:induction false} FailingTracks(pool: Pool, mod: map<Tx, Modified>, over: map<Tx, set<Tx>>, inBlock: set<Tx>, x: Tx)
    requires PoolOk(pool) && Tracks(pool, mod, over, inBlock) && x in pool.txs - inBlock
    ensures Tracks(pool, mod - {x}, over[x := Inside(pool, inBlock, x)], inBlock)
  {
    var mod', over' := mod - {x}, over[x := Inside(pool, inBlock, x)];
    hide GraphOk, CostsOk, TotalsOk, Tracked, Inside, Cached;
    CachedTracked(pool, mod', over', inBlock, x);
    forall t | t in pool.txs - inBlock - {x}
      ensures Tracked(pool, mod', over', inBlock, t)
    {
      assert Tracked(pool, mod, over, inBlock, t);
      OtherTracked(pool, mod, over, mod', over', inBlock, t);
    }
  }

  lemma {:induction false} OtherTracked(pool: Pool, mod: map<Tx, Modified>, over: map<Tx, set<Tx>>,
                                        mod': map<Tx, Modified>, over': map<Tx, set<Tx>>, inBlock: set<Tx>, t: Tx)
    requires KeysOk(pool) && t in pool.txs && Tracked(pool, mod, over, inBlock, t)
    requires t in mod <==> t in mod'
    requires Value(pool, mod', t) == Value(pool, mod, t) && Excess(over', t) == Excess(over, t)
    ensures Tracked(pool, mod', over', inBlock, t)
  {
    hide Value, Excess, Sum, Rest, Inside, FeesShifted, Package;
  }

  lemma {:induction false} ShiftTracks(pool: Pool, mod0: map<Tx, Modified>, mod: map<Tx, Modified>, over: map<Tx, set<Tx>>,
                                       inBlock: set<Tx>, added: set<Tx>, t: Tx)
    requires KeysOk(pool) && t in pool.txs && t !in inBlock + added && added !! inBlock
    requires Tracked(pool, mod0, over, inBlock, t)
    requires Shifted(pool, mod0 - added, mod, t, Due(pool, added, added, t))
    ensures Tracked(pool, mod, over, inBlock + added, t)
  {
    hide Ancestors, Sum, Rest, FeesShifted;
    var excess, due := Excess(over, t), Due(pool, added, added, t);
    var inside, inside' := Inside(pool, inBlock, t), Inside(pool, inBlock + added, t);
    assert inside' == inside + due && inside !! due;
    assert inside' - excess == (inside - excess) + due;
    RestShrinks(pool, pool.size, inBlock, added, t);
    RestShrinks(pool, pool.sigOps, inBlock, added, t);
    FeesJoin(pool, Sum(pool.modFee, Package(pool, t)), Value(pool, mod0, t).modFees, Value(pool, mod, t).modFees,
             inside - excess, due);
  }

  lemma {:induction false} FeesJoin(pool: Pool, fees0: int, fees1: int, fees2: int, gone: set<Tx>, more: set<Tx>)
    requires gone !! more && FeesShifted(pool, true, fees0, fees1, gone)
    requires FeesShifted(pool, gone == {}, fees1, fees2, more)
    ensures FeesShifted(pool, true, fees0, fees2, gone + more)
  {
    hide At, Sum;
    if gone == {} {
      assert gone + more == more;
    } else if more == {} {
      assert gone + more == gone;
    } else {
      var first :| first in gone && fees1 == fees0 - TakenOff(pool, gone, first);
      assert gone + more - {first} == (gone - {first}) + more;
      SumSplit(pool.fee, gone - {first}, more);
      assert fees2 == fees0 - TakenOff(pool, gone + more, first);
    }
  }

  lemma {:induction false} InclusionTracks(pool: Pool, mod0: map<Tx, Modified>, mod: map<Tx, Modified>, over: map<Tx, set<Tx>>,
                                           inBlock: set<Tx>, added: set<Tx>)
    requires KeysOk(pool) && Tracks(pool, mod0, over, inBlock)
    requires Closed(pool, inBlock) && added <= pool.txs && added !! inBlock
    requires mod.Keys <= pool.txs
    requires forall d :: d in pool.txs ==> Shifted(pool, mod0 - added, mod, d, Due(pool, added, added, d))
    ensures Tracks(pool, mod, over, inBlock + added)
  {
    hide Shifted, Tracked, Rest, Value;
    forall t | t in mod
      ensures t !in inBlock + added
    {
      OnlyDueOrKept(pool, mod0, mod, inBlock, added, t);
    }
    forall t | t in pool.txs - (inBlock + added)
      ensures Tracked(pool, mod, over, inBlock + added, t)
    {
      assert Tracked(pool, mod0, over, inBlock, t);
      ShiftTracks(pool, mod0, mod, over, inBlock, added, t);
    }
  }

  // A package that was dropped and comes back when more is included counts, once more, all
  // that was in the block when it was dropped; so its size is never right.
  lemma {:induction false} ReturningIsOverestimated(pool: Pool, mod0: map<Tx, Modified>, over: map<Tx, set<Tx>>,
                                                    mod: map<Tx, Modified>, inBlock: set<Tx>, added: set<Tx>, x: Tx)
    requires PoolOk(pool) && Tracks(pool, mod0, over, inBlock) && x in mod0 && x !in added && added !! inBlock
    requires Shifted(pool, mod0 - {x} - added, mod, x, Due(pool, added, added, x))
    ensures Value(pool, mod, x).size == Sum(pool.size, Rest(pool, inBlock + added, x)) + Sum(pool.size, Inside(pool, inBlock, x))
    ensures Value(pool, mod, x).sigOps ==
      Sum(pool.sigOps, Rest(pool, inBlock + added, x)) + Sum(pool.sigOps, Inside(pool, inBlock, x))
    ensures Inside(pool, inBlock, x) != {} && Value(pool, mod, x).size > Sum(pool.size, Rest(pool, inBlock + added, x))
  {
    hide GraphOk, TotalsOk, Sum, Rest, FeesShifted, Shifted, Ancestors;
    assert Tracked(pool, mod0, over, inBlock, x);
    FailingTracks(pool, mod0, over, inBlock, x);
    var over' := over[x := Inside(pool, inBlock, x)];
    assert Tracked(pool, mod0 - {x}, over', inBlock, x);
    ShiftTracks(pool, mod0 - {x}, mod, over', inBlock, added, x);
    var a :| a in Inside(pool, inBlock, x);
    assert a in pool.txs by { InsidePool(pool, inBlock, x, a); }
    SumAtLeast(pool.size, Inside(pool, inBlock, x), a);
  }

  lemma {:induction false} InsidePool(pool: Pool, inBlock: set<Tx>, x: Tx, a: Tx)
    requires a in Inside(pool, inBlock, x)
    ensures a in pool.txs
  {
  }

  // A sum of terms that are not negative is at least any one of them.
  lemma {:induction false} SumAtLeast(m: map<Tx, int>, s: set<Tx>, x: Tx)
    requires x in s && forall y :: y in m ==> m[y] >= 0
    ensures Sum(m, s) >= At(m, x)
  {
    SumWithout(m, s, x);
    SumNonNegative(m, s - {x});
  }

  lemma {:induction false} OnlyDueOrKept(pool: Pool, mod0: map<Tx, Modified>, mod: map<Tx, Modified>,
                                         inBlock: set<Tx>, added: set<Tx>, t: Tx)
    requires KeysOk(pool) && Closed(pool, inBlock) && added !! inBlock && mod0.Keys !! inBlock
    requires t in pool.txs && t in mod && Shifted(pool, mod0 - added, mod, t, Due(pool, added, added, t))
    ensures t !in inBlock + added
  {
    hide Ancestors, Value;
  }
}

module Miner {
  import opened Basics
  import opened MinerPool
  import opened MinerPackages

  const MAX_BLOCK_WEIGHT := 4000000
  const MAX_BLOCK_SIGOPS_COST := 80000
  const MAX_CONSECUTIVE_FAILURES := 1000

  ghost function Elems(s: seq<Tx>): set<Tx> {
    set x | x in s
  }

  ghost predicate NoDuplicates(s: seq<Tx>) {
    forall i, j :: 0 <= i < j < |s| ==> s[i] != s[j]
  }

  // Every entry comes after all its ancestors that are not in before.
  ghost predicate Ordered(pool: Pool, before: set<Tx>, s: seq<Tx>) {
    forall i :: 0 <= i < |s| ==> Ancestors(pool, s[i]) <= before + Elems(s[..i])
  }

  // ---- sorting a package ----

  // CompareTxIterByAncestorCount, with an entry standing for its hash.
  predicate Precedes(pool: Pool, a: Tx, b: Tx)
    requires a in pool.countAll && b in pool.countAll
  {
    pool.countAll[a] < pool.countAll[b] || (pool.countAll[a] == pool.countAll[b] && a < b)
  }

  ghost predicate Sorted(pool: Pool, s: seq<Tx>) {
    && Elems(s) <= pool.countAll.Keys
    && forall i, j :: 0 <= i < j < |s| ==> Precedes(pool, s[i], s[j])
  }

  method InsertSorted(pool: Pool, s: seq<Tx>, x: Tx) returns (r: seq<Tx>)
    requires Sorted(pool, s) && x in pool.countAll && x !in s
    ensures Sorted(pool, r) && Elems(r) == Elems(s) + {x}
  {
    var k := 0;
    while k < |s| && Precedes(pool, s[k], x)
      invariant 0 <= k <= |s|
      invariant forall i :: 0 <= i < k ==> Precedes(pool, s[i], x)
    {
      k := k + 1;
    }
    r := s[..k] + [x] + s[k..];
  }

  method SortForBlock(pool: Pool, package: set<Tx>) returns (sorted: seq<Tx>)
    requires package <= pool.countAll.Keys
    ensures Sorted(pool, sorted) && Elems(sorted) == package
  {
    sorted := [];
    var todo := package;
    while exists x :: x in todo
      invariant todo <= package && Sorted(pool, sorted) && Elems(sorted) == package - todo
      decreases todo
    {
      var x :| x in todo;
      todo := todo - {x};
      sorted := InsertSorted(pool, sorted, x);
    }
  }

  // What the sort is for: ancestors come first.
  lemma {:induction false} SortedIsOrdered(pool: Pool, inBlock: set<Tx>, sorted: seq<Tx>)
    requires PoolOk(pool) && Sorted(pool, sorted) && Closed(pool, inBlock + Elems(sorted))
    ensures Ordered(pool, inBlock, sorted) && NoDuplicates(sorted)
  {
    hide GraphOk, CostsOk, TotalsOk, Ancestors;
    forall i, a | 0 <= i < |sorted| && a in Ancestors(pool, sorted[i])
      ensures a in inBlock + Elems(sorted[..i])
    {
      assert sorted[i] in Elems(sorted);
      if a !in inBlock {
        assert a in Elems(sorted);
        var j :| 0 <= j < |sorted| && sorted[j] == a;
        AncestorCountsLess(pool, sorted[i], a);
        assert sorted[..i][j] == a;
      }
    }
  }

  // The part of a package outside a closed block closes the block again.
  lemma {:induction false} PackageCloses(pool: Pool, inBlock: set<Tx>, t: Tx)
    requires Closed(pool, inBlock) && t in pool.txs && Ancestors(pool, t) <= pool.txs
    ensures Closed(pool, inBlock + Rest(pool, inBlock, t))
  {
    forall x | x in inBlock + Rest(pool, inBlock, t)
      ensures Ancestors(pool, x) <= inBlock + Rest(pool, inBlock, t)
    {
      if x !in inBlock && x != t {
        PackageWithin(pool, t, x);
      }
    }
  }

  // ---- packages that do not fit ----

  // What packages are tested against.
  datatype Draft = Draft(maxWeight: int, allowed: set<Tx>, vtx: seq<Tx>, weight: int, sigOps: int)

  // The ancestors of t among the first k entries of the block.
  ghost function Early(pool: Pool, vtx: seq<Tx>, k: nat, t: Tx): set<Tx>
    requires k <= |vtx|
  {
    Ancestors(pool, t) * Elems(vtx[..k])
  }

  // m counts the rest of the package of t, and again the ancestors among the first k entries.
  ghost predicate CountedAt(pool: Pool, vtx: seq<Tx>, t: Tx, m: Modified, k: nat) {
    && k <= |vtx|
    && m.size == Sum(pool.size, Rest(pool, Elems(vtx), t)) + Sum(pool.size, Early(pool, vtx, k, t))
    && m.sigOps == Sum(pool.sigOps, Rest(pool, Elems(vtx), t)) + Sum(pool.sigOps, Early(pool, vtx, k, t))
    && FeesShifted(pool, true, Sum(pool.modFee, Package(pool, t)), m.modFees,
                   Inside(pool, Elems(vtx), t) - Early(pool, vtx, k, t))
    && (Early(pool, vtx, k, t) != {} ==> Early(pool, vtx, k, t) != Inside(pool, Elems(vtx), t))
  }

  predicate OverLimit(d: Draft, m: Modified) {
    || d.weight + WITNESS_SCALE_FACTOR * m.size >= d.maxWeight
    || d.sigOps + m.sigOps >= MAX_BLOCK_SIGOPS_COST
  }

  ghost predicate TooBigAt(pool: Pool, d: Draft, t: Tx, m: Modified, k: nat) {
    CountedAt(pool, d.vtx, t, m, k) && OverLimit(d, m)
  }

  // The package of t is over a limit, as it is counted. It is counted exactly, unless t was
  // dropped before and came back when a further ancestor was included: then the ancestors
  // that were in the block when it was dropped count again.
  ghost predicate TooBig(pool: Pool, d: Draft, dropped: set<Tx>, t: Tx) {
    exists m, k :: TooBigAt(pool, d, t, m, k) && (t !in dropped ==> k == 0)
  }

  ghost predicate Unfit(pool: Pool, d: Draft, dropped: set<Tx>, t: Tx) {
    TooBig(pool, d, dropped, t) || !(Rest(pool, Elems(d.vtx), t) <= d.allowed)
  }

  // When the block had k entries the package of t, counted exactly, did not fit.
  ghost predicate DroppedAt(pool: Pool, d: Draft, t: Tx, k: nat) {
    && k <= |d.vtx|
    && var before := Elems(d.vtx[..k]);
       || 4000 + Sum(pool.weight, before) + WITNESS_SCALE_FACTOR * Sum(pool.size, Rest(pool, before, t)) >= d.maxWeight
       || 400 + Sum(pool.sigOps, before) + Sum(pool.sigOps, Rest(pool, before, t)) >= MAX_BLOCK_SIGOPS_COST
       || !(Rest(pool, before, t) <= d.allowed)
  }

  ghost predicate AllDropped(pool: Pool, d: Draft, dropped: set<Tx>) {
    forall t :: t in dropped ==> exists k: nat :: DroppedAt(pool, d, t, k)
  }

  lemma {:induction false} DroppedStays(pool: Pool, d: Draft, d': Draft, dropped: set<Tx>)
    requires AllDropped(pool, d, dropped) && d.vtx <= d'.vtx && d.maxWeight == d'.maxWeight && d.allowed == d'.allowed
    ensures AllDropped(pool, d', dropped)
  {
    hide Sum, Rest, Elems;
    forall t | t in dropped
      ensures exists k: nat :: DroppedAt(pool, d', t, k)
    {
      var k: nat :| DroppedAt(pool, d, t, k);
      assert d'.vtx[..k] == d.vtx[..k];
      assert DroppedAt(pool, d', t, k);
    }
  }

  // t is not waiting for its turn.
  ghost predicate Done(mod: map<Tx, Modified>, waiting: seq<Tx>, failed: set<Tx>, t: Tx) {
    t !in mod && (t in failed || t !in waiting)
  }

  ghost predicate Settled(pool: Pool, d: Draft, mod: map<Tx, Modified>, waiting: seq<Tx>, failed: set<Tx>) {
    forall t :: t in pool.txs - Elems(d.vtx) && Done(mod, waiting, failed, t) ==> Unfit(pool, d, failed, t)
  }

  // Every excess dates from some earlier state of the block.
  ghost predicate Dated(pool: Pool, vtx: seq<Tx>, over: map<Tx, set<Tx>>) {
    forall t :: t in over ==> exists k: nat :: k <= |vtx| && over[t] == Early(pool, vtx, k, t)
  }

  lemma {:induction false} EarlyStays(pool: Pool, vtx: seq<Tx>, vtx': seq<Tx>, k: nat, t: Tx)
    requires vtx <= vtx' && k <= |vtx|
    ensures Early(pool, vtx', k, t) == Early(pool, vtx, k, t)
  {
    assert vtx'[..k] == vtx[..k];
  }

  lemma {:induction false} DatedStays(pool: Pool, vtx: seq<Tx>, vtx': seq<Tx>, over: map<Tx, set<Tx>>)
    requires vtx <= vtx' && Dated(pool, vtx, over)
    ensures Dated(pool, vtx', over)
  {
    hide Early;
    forall t | t in over
      ensures exists k: nat :: k <= |vtx'| && over[t] == Early(pool, vtx', k, t)
    {
      var k: nat :| k <= |vtx| && over[t] == Early(pool, vtx, k, t);
      EarlyStays(pool, vtx, vtx', k, t);
    }
  }

  lemma {:induction false} UnfitStays(pool: Pool, d: Draft, d': Draft, dropped: set<Tx>, added: set<Tx>, t: Tx)
    requires Unfit(pool, d, dropped, t) && t !in added && Ancestors(pool, t) * added == {}
    requires d.vtx <= d'.vtx && Elems(d'.vtx) == Elems(d.vtx) + added
    requires d.maxWeight == d'.maxWeight && d.allowed == d'.allowed && d.weight <= d'.weight && d.sigOps <= d'.sigOps
    ensures Unfit(pool, d', dropped, t)
  {
    hide Ancestors, Sum, FeesShifted;
    UntouchedRest(pool, Elems(d.vtx), added, t);
    if TooBig(pool, d, dropped, t) {
      var m, k :| TooBigAt(pool, d, t, m, k) && (t !in dropped ==> k == 0);
      EarlyStays(pool, d.vtx, d'.vtx, k, t);
      hide Early, Rest, Inside, Package, Elems;
      assert TooBigAt(pool, d', t, m, k);
    }
  }

  lemma {:induction false} UntouchedRest(pool: Pool, inBlock: set<Tx>, added: set<Tx>, t: Tx)
    requires t !in added && Ancestors(pool, t) * added == {}
    ensures Rest(pool, inBlock + added, t) == Rest(pool, inBlock, t)
    ensures Inside(pool, inBlock + added, t) == Inside(pool, inBlock, t)
  {
    hide Ancestors;
    forall x | x in added
      ensures x !in Package(pool, t)
    {
      assert x !in Ancestors(pool, t) * added;
    }
  }

  lemma {:induction false} InclusionSettles(pool: Pool, d: Draft, d': Draft, mod0: map<Tx, Modified>, mod: map<Tx, Modified>,
                                            waiting: seq<Tx>, failed: set<Tx>, added: set<Tx>)
    requires KeysOk(pool) && Settled(pool, d, mod0, waiting, failed) && mod.Keys <= pool.txs && added <= pool.txs
    requires d.vtx <= d'.vtx && Elems(d'.vtx) == Elems(d.vtx) + added
    requires d.maxWeight == d'.maxWeight && d.allowed == d'.allowed && d.weight <= d'.weight && d.sigOps <= d'.sigOps
    requires forall t :: t in pool.txs ==> Shifted(pool, mod0 - added, mod, t, Due(pool, added, added, t))
    ensures Settled(pool, d', mod, waiting, failed)
  {
    hide Value, Ancestors, Sum, Rest, Unfit;
    forall t | t in pool.txs - Elems(d'.vtx) && Done(mod, waiting, failed, t)
      ensures Unfit(pool, d', failed, t)
    {
      assert Shifted(pool, mod0 - added, mod, t, Due(pool, added, added, t));
      assert Unfit(pool, d, failed, t);
      UnfitStays(pool, d, d', failed, added, t);
    }
  }

  lemma {:induction false} SettledSkip(pool: Pool, d: Draft, mod: map<Tx, Modified>, order: seq<Tx>, i: nat, failed: set<Tx>)
    requires i < |order| && Settled(pool, d, mod, order[i..], failed)
    requires order[i] in mod || order[i] in Elems(d.vtx) || order[i] in failed
    ensures Settled(pool, d, mod, order[i + 1..], failed)
  {
    hide Unfit, Elems;
    assert order[i..] == [order[i]] + order[i + 1..];
  }

  lemma {:induction false} SettledPass(pool: Pool, d: Draft, mod: map<Tx, Modified>, order: seq<Tx>, i: nat, failed: set<Tx>)
    requires i < |order| && Settled(pool, d, mod, order[i..], failed) && Unfit(pool, d, failed, order[i])
    ensures Settled(pool, d, mod, order[i + 1..], failed)
  {
    hide Unfit, Elems;
    assert order[i..] == [order[i]] + order[i + 1..];
  }

  lemma {:induction false} SettledDrop(pool: Pool, d: Draft, mod: map<Tx, Modified>, waiting: seq<Tx>, failed: set<Tx>, t: Tx)
    requires Settled(pool, d, mod, waiting, failed) && Unfit(pool, d, failed + {t}, t)
    ensures Settled(pool, d, mod - {t}, waiting, failed + {t})
  {
    hide Unfit, Elems;
    forall x | x in pool.txs - Elems(d.vtx) && Done(mod - {t}, waiting, failed + {t}, x)
      ensures Unfit(pool, d, failed + {t}, x)
    {
      if x != t {
        UnfitMore(pool, d, failed, failed + {t}, x);
      }
    }
  }

  lemma {:induction false} BiggerMore(pool: Pool, d: Draft, dropped: set<Tx>, dropped': set<Tx>, t: Tx)
    requires TooBig(pool, d, dropped, t) && dropped <= dropped'
    ensures TooBig(pool, d, dropped', t)
  {
    hide TooBigAt;
  }

  lemma {:induction false} UnfitMore(pool: Pool, d: Draft, dropped: set<Tx>, dropped': set<Tx>, t: Tx)
    requires Unfit(pool, d, dropped, t) && dropped <= dropped'
    ensures Unfit(pool, d, dropped', t)
  {
    hide TooBig, Rest, Elems;
    if TooBig(pool, d, dropped, t) {
      BiggerMore(pool, d, dropped, dropped', t);
    }
  }

  // The totals of t, dated by the state of the block that their excess comes from.
  lemma {:induction false} Counting(pool: Pool, vtx: seq<Tx>, mod: map<Tx, Modified>, over: map<Tx, set<Tx>>, t: Tx)
    returns (k: nat)
    requires KeysOk(pool) && t in pool.txs && (t in mod || t !in over)
    requires Tracked(pool, mod, over, Elems(vtx), t) && Dated(pool, vtx, over)
    ensures CountedAt(pool, vtx, t, Value(pool, mod, t), k) && (t !in over ==> k == 0)
  {
    hide Sum, FeesShifted, Rest, Inside, Value, Package;
    k := 0;
    if t in over {
      hide Early;
      k :| k <= |vtx| && over[t] == Early(pool, vtx, k, t);
    } else {
      assert Early(pool, vtx, 0, t) == {};
    }
  }

  // No entries, no excess.
  lemma {:induction false} NoExcess(pool: Pool, vtx: seq<Tx>, t: Tx)
    ensures Early(pool, vtx, 0, t) == {} && Sum(pool.size, {}) == 0 && Sum(pool.sigOps, {}) == 0
  {
    hide Ancestors;
  }

  lemma {:induction false} TrackedIsSized(pool: Pool, mod: map<Tx, Modified>, over: map<Tx, set<Tx>>, inBlock: set<Tx>, t: Tx)
    requires KeysOk(pool) && CostsOk(pool) && t in pool.txs - inBlock && Tracked(pool, mod, over, inBlock, t)
    ensures Sized(pool, t, Value(pool, mod, t))
  {
    hide Sum, FeesShifted, Ancestors;
    SumAtLeast(pool.size, Rest(pool, inBlock, t), t);
    SumNonNegative(pool.size, Excess(over, t));
  }

  lemma {:induction false} RankedMeans(pool: Pool, order: seq<Tx>)
    requires Ranked(pool, order)
    ensures KeysOk(pool) && Elems(order) == pool.txs && NoDuplicates(order)
  {
    hide Elems, NoDuplicates, Outranks, KeysOk;
  }

  lemma {:induction false} ValueOf(pool: Pool, mod: map<Tx, Modified>, t: Tx)
    requires KeysOk(pool) && t in pool.txs
    ensures Value(pool, mod, t) == if t in mod then mod[t] else Cached(pool, t)
  {
  }

  // ---- which package comes next ----

  // CompareTxMemPoolEntryByAncestorFee: an entry is ranked by the lower of its own feerate and
  // that of its package, and by its hash among equals. Products are exact here.
  datatype Rate = Rate(fee: int, size: int)

  function RateOf(pool: Pool, t: Tx, m: Modified): Rate {
    if At(pool.modFee, t) * m.size > m.modFees * At(pool.size, t) then Rate(m.modFees, m.size)
    else Rate(At(pool.modFee, t), At(pool.size, t))
  }

  predicate Outranks(pool: Pool, a: Tx, ma: Modified, b: Tx, mb: Modified) {
    var x, y := RateOf(pool, a, ma), RateOf(pool, b, mb);
    if x.fee * y.size == x.size * y.fee then a < b else x.fee * y.size > x.size * y.fee
  }

  ghost predicate AtLeast(x: Rate, y: Rate) {
    x.fee * y.size >= x.size * y.fee
  }

  lemma {:induction false} AtLeastTransitive(x: Rate, y: Rate, z: Rate)
    requires x.size > 0 && y.size > 0 && z.size > 0 && AtLeast(x, y) && AtLeast(y, z)
    ensures AtLeast(x, z)
  {
    MulMono(x.size * y.fee, x.fee * y.size, z.size);
    MulMono(y.size * z.fee, y.fee * z.size, x.size);
    assert (x.size * y.fee) * z.size == (y.fee * z.size) * x.size;
    assert (x.fee * y.size) * z.size == y.size * (x.fee * z.size);
    assert (y.size * z.fee) * x.size == y.size * (x.size * z.fee);
    MulReflects(x.size * z.fee, x.fee * z.size, y.size);
  }

  lemma {:induction false} MulReflects(a: int, b: int, c: int)
    requires c > 0 && c * a <= c * b
    ensures a <= b
  {
    if b < a {
      assert c * a == c * b + c * (a - b);
      assert c * (a - b) >= c by { MulMono(1, a - b, c); }
    }
  }

  ghost predicate Sized(pool: Pool, t: Tx, m: Modified) {
    At(pool.size, t) > 0 && m.size > 0
  }

  function Own(pool: Pool, t: Tx): Rate {
    Rate(At(pool.modFee, t), At(pool.size, t))
  }

  function Whole(m: Modified): Rate {
    Rate(m.modFees, m.size)
  }

  // The first pays less for its size.
  predicate Below(x: Rate, y: Rate) {
    x.fee * y.size < y.fee * x.size
  }

  // The rate an entry is ranked by is one of its two, and neither is below it.
  lemma {:induction false} RateIsLower(pool: Pool, t: Tx, m: Modified)
    ensures RateOf(pool, t, m) == Own(pool, t) || RateOf(pool, t, m) == Whole(m)
    ensures !Below(Own(pool, t), RateOf(pool, t, m)) && !Below(Whole(m), RateOf(pool, t, m))
  {
  }

  // One of the two rates of b is below both rates of a.
  predicate Beats(pool: Pool, a: Tx, ma: Modified, b: Tx, mb: Modified) {
    || (Below(Own(pool, b), Own(pool, a)) && Below(Own(pool, b), Whole(ma)))
    || (Below(Whole(mb), Own(pool, a)) && Below(Whole(mb), Whole(ma)))
  }

  // The order in terms of fees and sizes alone.
  lemma {:induction false} OutranksMeans(pool: Pool, a: Tx, ma: Modified, b: Tx, mb: Modified)
    requires Sized(pool, a, ma) && Sized(pool, b, mb)
    ensures Outranks(pool, a, ma, b, mb) <==>
      Beats(pool, a, ma, b, mb) || (!Beats(pool, b, mb, a, ma) && a < b)
  {
    BeatsIsRate(pool, a, ma, b, mb);
    BeatsIsRate(pool, b, mb, a, ma);
    var x, y := RateOf(pool, a, ma), RateOf(pool, b, mb);
    hide RateOf, Beats;
    assert x.fee * y.size == y.size * x.fee && x.size * y.fee == y.fee * x.size;
  }

  lemma {:induction false} BeatsIsRate(pool: Pool, a: Tx, ma: Modified, b: Tx, mb: Modified)
    requires Sized(pool, a, ma) && Sized(pool, b, mb)
    ensures Beats(pool, a, ma, b, mb) <==> Below(RateOf(pool, b, mb), RateOf(pool, a, ma))
  {
    var x, y := RateOf(pool, a, ma), RateOf(pool, b, mb);
    RateIsLower(pool, a, ma);
    RateIsLower(pool, b, mb);
    hide RateOf, Below;
    if Below(y, x) {
      BelowTransitive(y, x, Own(pool, a));
      BelowTransitive(y, x, Whole(ma));
    }
    if Below(Own(pool, b), x) {
      AtMostBelow(y, Own(pool, b), x);
    }
    if Below(Whole(mb), x) {
      AtMostBelow(y, Whole(mb), x);
    }
  }

  // Below a rate is below every one that is not below that.
  lemma {:induction false} BelowTransitive(x: Rate, y: Rate, z: Rate)
    requires x.size > 0 && y.size > 0 && z.size > 0 && Below(x, y) && !Below(z, y)
    ensures Below(x, z)
  {
    if !Below(x, z) {
      assert AtLeast(x, z) by { assert x.fee * z.size >= z.fee * x.size; }
      assert AtLeast(z, y) by { assert z.fee * y.size >= y.fee * z.size; }
      AtLeastTransitive(x, z, y);
    }
  }

  lemma {:induction false} AtMostBelow(x: Rate, y: Rate, z: Rate)
    requires x.size > 0 && y.size > 0 && z.size > 0 && !Below(y, x) && Below(y, z)
    ensures Below(x, z)
  {
    if !Below(x, z) {
      assert AtLeast(x, z) by { assert x.fee * z.size >= z.fee * x.size; }
      assert AtLeast(y, x) by { assert y.fee * x.size >= x.fee * y.size; }
      AtLeastTransitive(y, x, z);
    }
  }

  // The own feerate of u, or that of its package, is at most that of the package m.
  predicate PaysNoMore(pool: Pool, u: Tx, n: Modified, m: Modified) {
    At(pool.modFee, u) * m.size <= m.modFees * At(pool.size, u) || n.modFees * m.size <= m.modFees * n.size
  }

  lemma {:induction false} OutrankedPaysNoMore(pool: Pool, u: Tx, n: Modified, t: Tx, m: Modified)
    requires Sized(pool, u, n) && Sized(pool, t, m) && !Outranks(pool, u, n, t, m)
    ensures PaysNoMore(pool, u, n, m)
  {
    OutranksMeans(pool, u, n, t, m);
    BeatsIsRate(pool, u, n, t, m);
    var x, y := RateOf(pool, u, n), RateOf(pool, t, m);
    RateIsLower(pool, t, m);
    RateIsLower(pool, u, n);
    hide RateOf, Outranks, Beats;
    if Below(Whole(m), x) {
      AtMostBelow(y, Whole(m), x);
    }
  }

  // Not being outranked is transitive.
  lemma {:induction false} RankTransitive(pool: Pool, a: Tx, ma: Modified, b: Tx, mb: Modified, c: Tx, mc: Modified)
    requires Sized(pool, a, ma) && Sized(pool, b, mb) && Sized(pool, c, mc)
    requires !Outranks(pool, b, mb, a, ma) && !Outranks(pool, c, mc, b, mb)
    ensures !Outranks(pool, c, mc, a, ma)
  {
    var x, y, z := RateOf(pool, a, ma), RateOf(pool, b, mb), RateOf(pool, c, mc);
    assert x.size > 0 && y.size > 0 && z.size > 0;
    NotOutranked(pool, a, ma, b, mb);
    NotOutranked(pool, b, mb, c, mc);
    AtLeastTransitive(x, y, z);
    if AtLeast(z, x) {
      AtLeastTransitive(z, x, y);
      AtLeastTransitive(y, z, x);
    }
    NotOutranked(pool, a, ma, c, mc);
  }

  lemma {:induction false} NotOutranked(pool: Pool, a: Tx, ma: Modified, b: Tx, mb: Modified)
    ensures var x, y := RateOf(pool, a, ma), RateOf(pool, b, mb);
            !Outranks(pool, b, mb, a, ma) <==> AtLeast(x, y) && (AtLeast(y, x) ==> a <= b)
  {
    hide RateOf;
    var x, y := RateOf(pool, a, ma), RateOf(pool, b, mb);
    assert y.fee * x.size == x.size * y.fee && y.size * x.fee == x.fee * y.size;
  }

  lemma {:induction false} OutranksBack(pool: Pool, a: Tx, ma: Modified, b: Tx, mb: Modified)
    requires Outranks(pool, a, ma, b, mb)
    ensures !Outranks(pool, b, mb, a, ma)
  {
    hide RateOf;
    var x, y := RateOf(pool, a, ma), RateOf(pool, b, mb);
    assert y.fee * x.size == x.size * y.fee && y.size * x.fee == x.fee * y.size;
  }

  // The first entry of mapModifiedTx in its order.
  method BestModified(pool: Pool, mod: map<Tx, Modified>) returns (best: Tx)
    requires mod != map[] && forall t :: t in mod ==> Sized(pool, t, mod[t])
    ensures best in mod && forall t :: t in mod ==> !Outranks(pool, t, mod[t], best, mod[best])
  {
    hide Outranks, Sized;
    assert exists t :: t in mod;
    best :| best in mod;
    var todo := mod.Keys - {best};
    assert !Outranks(pool, best, mod[best], best, mod[best]) by { NotItself(pool, best, mod[best]); }
    while exists t :: t in todo
      invariant todo <= mod.Keys && best in mod
      invariant forall t :: t in mod && t !in todo ==> !Outranks(pool, t, mod[t], best, mod[best])
      decreases todo
    {
      var u :| u in todo;
      if Outranks(pool, u, mod[u], best, mod[best]) {
        OutranksBack(pool, u, mod[u], best, mod[best]);
        forall t | t in mod && t !in todo
          ensures !Outranks(pool, t, mod[t], u, mod[u])
        {
          RankTransitive(pool, u, mod[u], best, mod[best], t, mod[t]);
        }
        NotItself(pool, u, mod[u]);
        best := u;
      }
      todo := todo - {u};
    }
  }

  lemma {:induction false} NotItself(pool: Pool, t: Tx, m: Modified)
    ensures !Outranks(pool, t, m, t, m)
  {
    hide RateOf;
    var x := RateOf(pool, t, m);
    assert x.fee * x.size == x.size * x.fee;
  }

  // mapTx in its order of ancestor scores.
  ghost predicate Ranked(pool: Pool, order: seq<Tx>) {
    && KeysOk(pool) && Elems(order) == pool.txs && NoDuplicates(order)
    && forall i, j :: 0 <= i < j < |order| && order[i] in pool.txs && order[j] in pool.txs ==>
         !Outranks(pool, order[j], Cached(pool, order[j]), order[i], Cached(pool, order[i]))
  }

  // Nothing that is still waiting for its turn outranks t.
  ghost predicate Best(pool: Pool, mod: map<Tx, Modified>, waiting: seq<Tx>, failed: set<Tx>, inBlock: set<Tx>, t: Tx)
    requires KeysOk(pool) && t in pool.txs
  {
    forall u :: u in pool.txs - inBlock && !Done(mod, waiting, failed, u) ==>
      !Outranks(pool, u, Value(pool, mod, u), t, Value(pool, mod, t))
  }

  // The next entry of mapTx against the best modified one.
  lemma {:induction false} BestOfBoth(pool: Pool, mod: map<Tx, Modified>, order: seq<Tx>, i: nat, failed: set<Tx>,
                                      inBlock: set<Tx>, best: Tx, t: Tx)
    requires Ranked(pool, order) && i < |order| && order[i] !in mod && mod.Keys <= pool.txs && best in mod
    requires forall u :: u in pool.txs - inBlock ==> Sized(pool, u, Value(pool, mod, u))
    requires best !in inBlock && order[i] !in inBlock
    requires forall u :: u in mod ==> !Outranks(pool, u, mod[u], best, mod[best])
    requires t == if Outranks(pool, best, mod[best], order[i], Cached(pool, order[i])) then best else order[i]
    ensures t in pool.txs && Best(pool, mod, order[i..], failed, inBlock, t)
  {
    hide Outranks, Sized, Ranked, KeysOk;
    RankedMeans(pool, order);
    var x := order[i];
    assert x in pool.txs by { InOrder(pool, order, i); }
    if t == best {
      OutranksBack(pool, best, mod[best], x, Cached(pool, x));
    } else {
      NotItself(pool, x, Cached(pool, x));
    }
    NotItself(pool, best, mod[best]);
    assert Sized(pool, best, Value(pool, mod, best)) && Sized(pool, x, Value(pool, mod, x));
    forall u | u in pool.txs - inBlock && !Done(mod, order[i..], failed, u)
      ensures !Outranks(pool, u, Value(pool, mod, u), t, Value(pool, mod, t))
    {
      if u in mod {
        RankTransitive(pool, t, Value(pool, mod, t), best, mod[best], u, mod[u]);
      } else {
        FromOrder(pool, order, i, u);
        RankTransitive(pool, t, Value(pool, mod, t), x, Cached(pool, x), u, Cached(pool, u));
      }
    }
  }

  lemma {:induction false} InOrder(pool: Pool, order: seq<Tx>, i: nat)
    requires i < |order| && Ranked(pool, order)
    ensures order[i] in pool.txs
  {
    hide Outranks, KeysOk;
    assert order[i] in Elems(order);
  }

  lemma {:induction false} FromOrder(pool: Pool, order: seq<Tx>, i: nat, u: Tx)
    requires Ranked(pool, order) && i < |order| && u in order[i..]
    ensures u in pool.txs && order[i] in pool.txs && !Outranks(pool, u, Cached(pool, u), order[i], Cached(pool, order[i]))
  {
    hide Outranks;
    var j :| i <= j < |order| && order[j] == u;
    assert order[i] in Elems(order) && order[j] in Elems(order);
    NotItself(pool, u, Cached(pool, u));
  }

  // How the search for packages ended: nothing is left; t pays too little for what it is
  // counted as, and nothing that was left outranks it; or more than a thousand packages in a
  // row were too big near the limit.
  datatype Stop =
    | Exhausted(dropped: set<Tx>)
    | LowFee(t: Tx, m: Modified, dropped: set<Tx>)
    | NearlyFull(missed: set<Tx>, dropped: set<Tx>)

  // Each entry once, after its ancestors, with its fee and cost.
  ghost predicate TemplateOf(pool: Pool, vtx: seq<Tx>, fees: seq<int>, costs: seq<int>, inBlock: set<Tx>) {
    && NoDuplicates(vtx) && Elems(vtx) == inBlock <= pool.txs && Ordered(pool, {}, vtx)
    && |fees| == |costs| == |vtx|
    && forall i :: 0 <= i < |vtx| ==> fees[i] == At(pool.fee, vtx[i]) && costs[i] == At(pool.sigOps, vtx[i])
  }

  lemma {:induction false} TemplateGrows(pool: Pool, vtx: seq<Tx>, fees: seq<int>, costs: seq<int>, inBlock: set<Tx>, t: Tx)
    requires TemplateOf(pool, vtx, fees, costs, inBlock) && t in pool.txs - inBlock && Ancestors(pool, t) <= inBlock
    ensures TemplateOf(pool, vtx + [t], fees + [At(pool.fee, t)], costs + [At(pool.sigOps, t)], inBlock + {t})
  {
    hide Ancestors, At;
    OrderedAppend(pool, vtx, t);
    hide Ordered;
    assert t !in vtx;
  }

  lemma {:induction false} NoElems(s: seq<Tx>)
    ensures Elems(s[..0]) == {}
  {
  }

  lemma {:induction false} NextOfPackage(pool: Pool, before: set<Tx>, sorted: seq<Tx>, i: nat)
    requires i < |sorted| && NoDuplicates(sorted) && Ordered(pool, before, sorted)
    ensures sorted[i] in Elems(sorted) && sorted[i] !in Elems(sorted[..i])
    ensures Ancestors(pool, sorted[i]) <= before + Elems(sorted[..i])
    ensures Elems(sorted[..i + 1]) == Elems(sorted[..i]) + {sorted[i]}
  {
    hide Ancestors;
    assert sorted[..i + 1] == sorted[..i] + [sorted[i]];
    assert forall j :: 0 <= j < i ==> sorted[j] != sorted[i];
  }

  class BlockAssembler {
    const pool: Pool
    const nBlockMaxWeight: int
    const minFee: int -> int
    const allowed: set<Tx>  // final, and without a witness where none may be mined
    var vtx: seq<Tx>  // after the coinbase
    var vTxFees: seq<int>
    var vTxSigOpsCost: seq<int>
    var inBlock: set<Tx>
    var nBlockWeight: int
    var nBlockSigOpsCost: int
    var nBlockTx: int
    var nFees: int

    // The template: each entry once, after its ancestors, with its fee and cost.
    ghost predicate Template()
      reads this
    {
      TemplateOf(pool, vtx, vTxFees, vTxSigOpsCost, inBlock)
    }

    // The running totals, with the room kept for the coinbase.
    ghost predicate Totals()
      reads this
    {
      && nBlockWeight == 4000 + Sum(pool.weight, inBlock)
      && nBlockSigOpsCost == 400 + Sum(pool.sigOps, inBlock)
      && nFees == Sum(pool.fee, inBlock)
      && nBlockTx == |vtx|
    }

    ghost predicate Limits()
      reads this
    {
      && nBlockWeight <= nBlockMaxWeight <= MAX_BLOCK_WEIGHT - 4000
      && (inBlock != {} ==> nBlockWeight < nBlockMaxWeight)
      && nBlockSigOpsCost < MAX_BLOCK_SIGOPS_COST
      && inBlock <= allowed
    }

    ghost predicate Valid()
      reads this
    {
      PoolOk(pool) && Template() && Totals() && Limits()
    }

    constructor (pool: Pool, maxWeight: nat, minFee: int -> int, allowed: set<Tx>)
      requires PoolOk(pool)
      ensures Valid() && inBlock == {}
      ensures this.pool == pool && this.minFee == minFee && this.allowed == allowed
      ensures maxWeight <= 4000 ==> nBlockMaxWeight == 4000
      ensures 4000 <= maxWeight <= MAX_BLOCK_WEIGHT - 4000 ==> nBlockMaxWeight == maxWeight
      ensures maxWeight >= MAX_BLOCK_WEIGHT - 4000 ==> nBlockMaxWeight == MAX_BLOCK_WEIGHT - 4000
    {
      hide GraphOk, CostsOk, TotalsOk, Template, Totals, Limits;
      this.pool, this.minFee, this.allowed := pool, minFee, allowed;
      var capped := if maxWeight < MAX_BLOCK_WEIGHT - 4000 then maxWeight else MAX_BLOCK_WEIGHT - 4000;
      nBlockMaxWeight := if capped > 4000 then capped else 4000;
      new;
      ResetBlock();
    }

    method ResetBlock()
      requires 4000 <= nBlockMaxWeight <= MAX_BLOCK_WEIGHT - 4000
      modifies this
      ensures Template() && Totals() && Limits() && inBlock == {}
    {
      hide Ancestors;
      vtx, vTxFees, vTxSigOpsCost, inBlock := [], [], [], {};
      nBlockWeight, nBlockSigOpsCost, nBlockTx, nFees := 4000, 400, 0, 0;
    }

    method AddToBlock(t: Tx)
      requires PoolOk(pool) && Template() && Totals()
      requires t in pool.txs - inBlock && Ancestors(pool, t) <= inBlock
      modifies this
      ensures Template() && Totals()
      ensures vtx == old(vtx) + [t] && inBlock == old(inBlock) + {t}
    {
      hide GraphOk, CostsOk, TotalsOk, Ancestors, Sum, TemplateOf;
      SumWithout(pool.weight, inBlock + {t}, t);
      SumWithout(pool.sigOps, inBlock + {t}, t);
      SumWithout(pool.fee, inBlock + {t}, t);
      assert inBlock + {t} - {t} == inBlock;
      TemplateGrows(pool, vtx, vTxFees, vTxSigOpsCost, inBlock, t);
      vtx := vtx + [t];
      vTxFees := vTxFees + [pool.fee[t]];
      vTxSigOpsCost := vTxSigOpsCost + [pool.sigOps[t]];
      nBlockWeight := nBlockWeight + pool.weight[t];
      nBlockTx := nBlockTx + 1;
      nBlockSigOpsCost := nBlockSigOpsCost + pool.sigOps[t];
      nFees := nFees + pool.fee[t];
      inBlock := inBlock + {t};
    }

    // The loop that includes a sorted package.
    method AddPackage(sorted: seq<Tx>, ghost package: set<Tx>)
      requires PoolOk(pool) && Template() && Totals()
      requires NoDuplicates(sorted) && Ordered(pool, inBlock, sorted) && Elems(sorted) == package <= pool.txs - inBlock
      modifies this
      ensures Template() && Totals()
      ensures vtx == old(vtx) + sorted && inBlock == old(inBlock) + package
    {
      hide GraphOk, CostsOk, TotalsOk, Ancestors, Template, Totals, Elems, Ordered, NoDuplicates;
      var i := 0;
      assert Elems(sorted[..0]) == {} by { NoElems(sorted); }
      while i < |sorted|
        invariant 0 <= i <= |sorted| && Template() && Totals()
        invariant vtx == old(vtx) + sorted[..i] && inBlock == old(inBlock) + Elems(sorted[..i])
      {
        NextOfPackage(pool, old(inBlock), sorted, i);
        AddToBlock(sorted[i]);
        assert sorted[..i + 1] == sorted[..i] + [sorted[i]];
        i := i + 1;
      }
      assert sorted[..i] == sorted;
    }

    predicate TestPackage(packageSize: int, packageSigOpsCost: int)
      reads this
    {
      && nBlockWeight + WITNESS_SCALE_FACTOR * packageSize < nBlockMaxWeight
      && nBlockSigOpsCost + packageSigOpsCost < MAX_BLOCK_SIGOPS_COST
    }

    ghost function Drafted(): Draft
      reads this
    {
      Draft(nBlockMaxWeight, allowed, vtx, nBlockWeight, nBlockSigOpsCost)
    }

    // All that addPackageTxs keeps between two packages.
    ghost predicate Going(mod: map<Tx, Modified>, waiting: seq<Tx>, failed: set<Tx>, over: map<Tx, set<Tx>>)
      reads this
    {
      && Valid() && Tracks(pool, mod, over, inBlock) && over.Keys == failed && Dated(pool, vtx, over)
      && Settled(pool, Drafted(), mod, waiting, failed) && AllDropped(pool, Drafted(), failed)
    }

    // Packages that were too big since the last one was included.
    ghost predicate Missed(mod: map<Tx, Modified>, waiting: seq<Tx>, failed: set<Tx>, missed: set<Tx>)
      reads this
    {
      && missed <= pool.txs - inBlock
      && forall t :: t in missed ==> Done(mod, waiting, failed, t) && TooBig(pool, Drafted(), failed, t)
    }

    // u was left and is counted as something that t outranks.
    ghost predicate LeftBehind(u: Tx, dropped: set<Tx>, t: Tx, m: Modified)
      reads this
    {
      exists n, k :: CountedAt(pool, vtx, u, n, k) && (u !in dropped ==> k == 0)
                    && !Outranks(pool, u, n, t, m) && PaysNoMore(pool, u, n, m)
    }

    ghost predicate Stopped(stop: Stop)
      reads this
    {
      && AllDropped(pool, Drafted(), stop.dropped)
      && match stop
         case Exhausted(dropped) => forall t :: t in pool.txs - inBlock ==> Unfit(pool, Drafted(), dropped, t)
         case LowFee(t, m, dropped) =>
           && t in pool.txs - inBlock && m.modFees < minFee(m.size)
           && (exists k :: CountedAt(pool, vtx, t, m, k) && (t !in dropped ==> k == 0))
           && forall u :: u in pool.txs - inBlock ==> Unfit(pool, Drafted(), dropped, u) || LeftBehind(u, dropped, t, m)
         case NearlyFull(missed, dropped) =>
           && nBlockWeight > nBlockMaxWeight - 4000 && |missed| > MAX_CONSECUTIVE_FAILURES
           && missed <= pool.txs - inBlock && forall t :: t in missed ==> TooBig(pool, Drafted(), dropped, t)
    }

    // A package that keeps within the limits and may be mined, sorted and added.
    method Install(t: Tx, package: set<Tx>)
      requires Valid() && t in pool.txs - inBlock && package == Rest(pool, inBlock, t) <= allowed
      requires 0 <= Sum(pool.weight, package) < nBlockMaxWeight - nBlockWeight
      requires 0 <= Sum(pool.sigOps, package) < MAX_BLOCK_SIGOPS_COST - nBlockSigOpsCost
      modifies this
      ensures Valid() && inBlock == old(inBlock) + package && old(vtx) <= vtx
      ensures nBlockWeight >= old(nBlockWeight) && nBlockSigOpsCost >= old(nBlockSigOpsCost)
    {
      hide GraphOk, CostsOk, TotalsOk, Ancestors, Rest, Sum, Template;
      ghost var before := inBlock;
      ReadyPackage(t, package);
      var sorted := SortForBlock(pool, package);
      SortedIsOrdered(pool, inBlock, sorted);
      AddPackage(sorted, package);
      SumSplit(pool.weight, before, package);
      SumSplit(pool.sigOps, before, package);
    }

    // The package of t passed TestPackage: include it if all of it may be mined.
    method IncludePackage(t: Tx, mod0: map<Tx, Modified>, ghost waiting: seq<Tx>, ghost failed: set<Tx>,
                          ghost over: map<Tx, set<Tx>>)
      returns (included: bool, mod: map<Tx, Modified>)
      requires Going(mod0, waiting, failed, over) && t in pool.txs - inBlock
      requires TestPackage(Value(pool, mod0, t).size, Value(pool, mod0, t).sigOps)
      modifies this
      ensures Going(mod, waiting, failed, over)
      ensures !included ==> mod == mod0 && unchanged(this) && !(Rest(pool, inBlock, t) <= allowed)
      ensures included ==> inBlock == old(inBlock) + Rest(pool, old(inBlock), t)
      ensures included ==> old(vtx) <= vtx
    {
      hide GraphOk, CostsOk, TotalsOk, Ancestors, Sum, Shifted, Template, Totals, Limits, Settled, Tracks, Dated, Elems,
           AllDropped;
      var ancestors := CalculateAncestors(pool, t);
      var package := ancestors - inBlock + {t};
      assert package == Rest(pool, inBlock, t);
      mod := mod0;
      included := package <= allowed;
      if included {
        ghost var before, draft := inBlock, Drafted();
        PackageFits(pool, mod0, over, inBlock, t);
        ReadyPackage(t, package);
        BlockIsElems();
        Install(t, package);
        BlockIsElems();
        mod := UpdatePackagesForAdded(pool, package, mod0 - package);
        InclusionTracks(pool, mod0, mod, over, before, package);
        DatedStays(pool, draft.vtx, vtx, over);
        DroppedStays(pool, draft, Drafted(), failed);
        InclusionSettles(pool, draft, Drafted(), mod0, mod, waiting, failed, package);
      }
    }

    // One turn of addPackageTxs on the chosen entry: TestPackage, then the rest.
    method EvaluatePackage(t: Tx, usingModified: bool, mod0: map<Tx, Modified>, order: seq<Tx>, i: nat, failed0: set<Tx>,
                           ghost over0: map<Tx, set<Tx>>)
      returns (tested: bool, included: bool, mod: map<Tx, Modified>, failed: set<Tx>, ghost over: map<Tx, set<Tx>>)
      requires i <= |order| && Going(mod0, order[i..], failed0, over0) && t in pool.txs - inBlock
      requires if usingModified then t in mod0 else i < |order| && order[i] == t && t !in mod0 && t !in failed0
      modifies this
      ensures usingModified ==> Going(mod, order[i..], failed, over)
      ensures !usingModified ==> Going(mod, order[i + 1..], failed, over)
      ensures included ==> tested && t in inBlock && old(inBlock) <= inBlock
      ensures !included ==> unchanged(this) && mod == if usingModified then mod0 - {t} else mod0
      ensures !included ==> failed == if usingModified then failed0 + {t} else failed0
      ensures !tested ==> TooBig(pool, Drafted(), failed, t)
      ensures tested == old(TestPackage(Value(pool, mod0, t).size, Value(pool, mod0, t).sigOps))
    {
      hide GraphOk, CostsOk, TotalsOk, Ancestors, Sum, Shifted, Template, Totals, Limits, Settled, Tracks, Dated, TooBig, Unfit,
           AllDropped;
      mod, failed, over, included := mod0, failed0, over0, false;
      var m := if usingModified then mod[t] else Cached(pool, t);
      tested := TestPackage(m.size, m.sigOps);
      if tested {
        included, mod := IncludePackage(t, mod, order[i..], failed, over);
      }
      hide Going;
      if included {
        if !usingModified {
          Skip(mod, order, i, failed, over);
        }
      } else {
        Rejected(mod, order, i, failed, over, t, usingModified);
        if usingModified {
          mod, failed, over := mod - {t}, failed + {t}, over[t := Inside(pool, inBlock, t)];
        }
      }
    }

    // A turn with the count of packages in a row that were too big.
    method Attempt(t: Tx, usingModified: bool, mod0: map<Tx, Modified>, order: seq<Tx>, i: nat, failed0: set<Tx>, failures0: nat,
                   ghost over0: map<Tx, set<Tx>>, ghost missed0: set<Tx>)
      returns (tested: bool, included: bool, mod: map<Tx, Modified>, failed: set<Tx>, failures: nat,
               ghost over: map<Tx, set<Tx>>, ghost missed: set<Tx>)
      requires i <= |order| && NoDuplicates(order) && Going(mod0, order[i..], failed0, over0) && t in pool.txs - inBlock
      requires if usingModified then t in mod0 else i < |order| && order[i] == t && t !in mod0 && t !in failed0
      requires Missed(mod0, order[i..], failed0, missed0) && |missed0| == failures0
      modifies this
      ensures Valid() && Going(mod, order[(if usingModified then i else i + 1)..], failed, over)
      ensures Missed(mod, order[(if usingModified then i else i + 1)..], failed, missed) && |missed| == failures
      ensures included ==> t in inBlock && old(inBlock) <= inBlock && failures == 0
      ensures !included ==> unchanged(this) && mod == if usingModified then mod0 - {t} else mod0
    {
      hide Valid, Elems, KeysOk, Cached, Value, Going, Missed, TooBig, NoDuplicates;
      tested, included, mod, failed, over := EvaluatePackage(t, usingModified, mod0, order, i, failed0, over0);
      ghost var waiting := order[(if usingModified then i else i + 1)..];
      Keeps(mod, waiting, failed, over);
      failures, missed := failures0, missed0;
      if included {
        failures, missed := 0, {};
        NoneMissed(mod, waiting, failed);
      } else {
        StillMissed(mod0, mod, order, i, failed0, failed, missed0, t, usingModified);
        if !tested {
          failures := failures + 1;
          OneMoreMissed(mod, waiting, failed, missed, t);
          missed := missed + {t};
        }
      }
    }

    // The descendants of what is in the block already account for it.
    method StartPackages(order: seq<Tx>) returns (mod: map<Tx, Modified>)
      requires Valid() && Elems(order) == pool.txs
      ensures Going(mod, order[0..], {}, map[])
    {
      hide GraphOk, CostsOk, TotalsOk, Ancestors, Shifted, Template, Totals, Limits, Going;
      assert inBlock <= pool.txs by { TemplateIsClosed(); }
      mod := UpdatePackagesForAdded(pool, inBlock, map[]);
      StartGoing(mod, order);
    }

    // The entry that is looked at next: none that is waiting outranks it.
    method Choose(mod: map<Tx, Modified>, order: seq<Tx>, i: nat, failed: set<Tx>, ghost over: map<Tx, set<Tx>>)
      returns (t: Tx, usingModified: bool)
      requires i <= |order| && Ranked(pool, order) && Going(mod, order[i..], failed, over) && (i < |order| || mod != map[])
      requires i < |order| ==> order[i] !in mod && order[i] !in inBlock && order[i] !in failed
      ensures if usingModified then t in mod else i < |order| && order[i] == t && t !in mod && t !in failed
      ensures KeysOk(pool) && t in pool.txs - inBlock && Best(pool, mod, order[i..], failed, inBlock, t)
    {
      hide Going, Ranked, Best, Outranks, Sized;
      Ready(mod, order, i, failed, over);
      t, usingModified := 0, false;
      if mod != map[] {
        t := BestModified(pool, mod);
        usingModified := i == |order| || Outranks(pool, t, mod[t], order[i], Cached(pool, order[i]));
        if i < |order| {
          BestOfBoth(pool, mod, order, i, failed, inBlock, t, if usingModified then t else order[i]);
        } else {
          OnlyModified(mod, order, i, failed, t);
        }
      } else {
        NextInOrder(mod, order, i, failed);
      }
      if !usingModified {
        t := order[i];
      }
    }

    // addPackageTxs, on mapTx in its order.
    method AddPackageTxs(order: seq<Tx>) returns (nPackagesSelected: nat, ghost stop: Stop)
      requires Valid() && Ranked(pool, order)
      modifies this
      ensures Valid() && old(inBlock) <= inBlock && Stopped(stop)
    {
      hide Valid, Elems, KeysOk, Cached, Value, Going, Missed, Stopped, TooBig, Best, Ranked;
      RankedMeans(pool, order);
      var mod := StartPackages(order);
      var failed: set<Tx> := {};
      ghost var over: map<Tx, set<Tx>>, missed: set<Tx> := map[], {};
      var i, nConsecutiveFailed := 0, 0;
      nPackagesSelected := 0;
      NoneMissed(mod, order[i..], failed);
      while i < |order| || exists t :: t in mod
        invariant 0 <= i <= |order| && Going(mod, order[i..], failed, over) && Valid() && old(inBlock) <= inBlock
        invariant Missed(mod, order[i..], failed, missed) && |missed| == nConsecutiveFailed
        decreases pool.txs - inBlock, |order| - i + |mod|
      {
        if i < |order| && (order[i] in mod || order[i] in inBlock || order[i] in failed) {
          Skip(mod, order, i, failed, over);
          SkipMissed(mod, order, i, failed, missed);
          i := i + 1;
        } else {
          var t, usingModified := Choose(mod, order, i, failed, over);
          var m := if usingModified then mod[t] else Cached(pool, t);
          if m.modFees < minFee(m.size) {
            stop := LowFee(t, m, failed);
            assert m == Value(pool, mod, t) by { ValueOf(pool, mod, t); }
            TooLow(mod, order[i..], failed, over, t, m);
            return;
          }
          ghost var mod0, out0 := mod, pool.txs - inBlock;
          var tested, included;
          tested, included, mod, failed, nConsecutiveFailed, over, missed :=
            Attempt(t, usingModified, mod, order, i, failed, nConsecutiveFailed, over, missed);
          i := if usingModified then i else i + 1;
          if included {
            nPackagesSelected := nPackagesSelected + 1;
            assert t in out0 && t !in pool.txs - inBlock;
          } else {
            assert usingModified ==> mod0.Keys == mod.Keys + {t};
            if !tested && nConsecutiveFailed > MAX_CONSECUTIVE_FAILURES && nBlockWeight > nBlockMaxWeight - 4000 {
              stop := NearlyFull(missed, failed);
              GaveUp(mod, order[i..], failed, over, missed);
              return;
            }
          }
        }
      }
      stop := Exhausted(failed);
      assert mod == map[] && order[i..] == [];
      Finished(mod, failed, over);
    }

    lemma {:induction false} NoneMissed(mod: map<Tx, Modified>, waiting: seq<Tx>, failed: set<Tx>)
      ensures Missed(mod, waiting, failed, {})
    {
    }

    lemma {:induction false} SkipMissed(mod: map<Tx, Modified>, order: seq<Tx>, i: nat, failed: set<Tx>, missed: set<Tx>)
      requires i < |order| && Missed(mod, order[i..], failed, missed)
      ensures Missed(mod, order[i + 1..], failed, missed)
    {
      hide TooBig;
      assert order[i..] == [order[i]] + order[i + 1..];
    }

    // The entry that was looked at was not missed before, and the missed ones stay so.
    lemma {:induction false} StillMissed(mod0: map<Tx, Modified>, mod: map<Tx, Modified>, order: seq<Tx>, i: nat,
                                         failed0: set<Tx>, failed: set<Tx>, missed: set<Tx>, t: Tx, usingModified: bool)
      requires i <= |order| && NoDuplicates(order) && Missed(mod0, order[i..], failed0, missed)
      requires if usingModified then t in mod0 else i < |order| && order[i] == t && t !in mod0 && t !in failed0
      requires mod == if usingModified then mod0 - {t} else mod0
      requires failed == if usingModified then failed0 + {t} else failed0
      ensures t !in missed && Missed(mod, order[(if usingModified then i else i + 1)..], failed, missed)
      ensures Done(mod, order[(if usingModified then i else i + 1)..], failed, t)
    {
      hide TooBig;
      forall x | x in missed
        ensures TooBig(pool, Drafted(), failed, x)
      {
        BiggerMore(pool, Drafted(), failed0, failed, x);
      }
      if !usingModified {
        assert order[i..] == [order[i]] + order[i + 1..];
        assert forall j :: i < j < |order| ==> order[j] != t;
      }
    }

    lemma {:induction false} OneMoreMissed(mod: map<Tx, Modified>, waiting: seq<Tx>, failed: set<Tx>, missed: set<Tx>, t: Tx)
      requires Missed(mod, waiting, failed, missed) && t in pool.txs - inBlock
      requires Done(mod, waiting, failed, t) && TooBig(pool, Drafted(), failed, t)
      ensures Missed(mod, waiting, failed, missed + {t})
    {
      hide TooBig, Done;
    }

    lemma {:induction false} GaveUp(mod: map<Tx, Modified>, waiting: seq<Tx>, failed: set<Tx>, over: map<Tx, set<Tx>>, missed: set<Tx>)
      requires Going(mod, waiting, failed, over)
      requires Missed(mod, waiting, failed, missed) && |missed| > MAX_CONSECUTIVE_FAILURES
      requires nBlockWeight > nBlockMaxWeight - 4000
      ensures Stopped(NearlyFull(missed, failed))
    {
      hide TooBig, Done, Valid, Tracks, Dated, Settled, AllDropped;
    }

    // What Choose needs of its entries.
    lemma {:induction false} Ready(mod: map<Tx, Modified>, order: seq<Tx>, i: nat, failed: set<Tx>, over: map<Tx, set<Tx>>)
      requires i <= |order| && Going(mod, order[i..], failed, over) && Ranked(pool, order)
      ensures KeysOk(pool) && mod.Keys <= pool.txs - inBlock && (i < |order| ==> order[i] in pool.txs)
      ensures forall u :: u in pool.txs - inBlock ==> Sized(pool, u, Value(pool, mod, u))
      ensures forall u :: u in mod ==> Sized(pool, u, mod[u])
    {
      hide GraphOk, TotalsOk, Template, Totals, Limits, Settled, Dated, AllDropped, Sized, Tracked, Outranks;
      if i < |order| {
        assert order[i] in Elems(order);
      }
      forall u | u in pool.txs - inBlock
        ensures Sized(pool, u, Value(pool, mod, u))
      {
        assert Tracked(pool, mod, over, inBlock, u);
        TrackedIsSized(pool, mod, over, inBlock, u);
      }
      forall u | u in mod
        ensures Sized(pool, u, mod[u])
      {
        assert Sized(pool, u, Value(pool, mod, u));
      }
    }

    lemma {:induction false} OnlyModified(mod: map<Tx, Modified>, order: seq<Tx>, i: nat, failed: set<Tx>, t: Tx)
      requires i == |order| && KeysOk(pool) && t in mod && mod.Keys <= pool.txs
      requires forall u :: u in mod ==> !Outranks(pool, u, mod[u], t, mod[t])
      ensures Best(pool, mod, order[i..], failed, inBlock, t)
    {
      hide Outranks;
    }

    lemma {:induction false} NextInOrder(mod: map<Tx, Modified>, order: seq<Tx>, i: nat, failed: set<Tx>)
      requires i < |order| && Ranked(pool, order) && mod == map[]
      ensures order[i] in pool.txs && Best(pool, mod, order[i..], failed, inBlock, order[i])
    {
      hide Outranks;
      assert order[i] in Elems(order);
      forall u | u in pool.txs - inBlock && !Done(mod, order[i..], failed, u)
        ensures !Outranks(pool, u, Value(pool, mod, u), order[i], Value(pool, mod, order[i]))
      {
        FromOrder(pool, order, i, u);
      }
    }

    lemma {:induction false} BlockIsElems()
      requires Template()
      ensures Elems(vtx) == inBlock
    {
      hide Elems, Ordered, NoDuplicates;
    }

    lemma {:induction false} TooLow(mod: map<Tx, Modified>, waiting: seq<Tx>, failed: set<Tx>, over: map<Tx, set<Tx>>, t: Tx,
                                    m: Modified)
      requires Going(mod, waiting, failed, over) && t in pool.txs - inBlock && (t in mod || t !in failed)
      requires m == Value(pool, mod, t) && m.modFees < minFee(m.size) && Best(pool, mod, waiting, failed, inBlock, t)
      ensures Stopped(LowFee(t, m, failed))
    {
      hide GraphOk, CostsOk, TotalsOk, Template, Totals, Limits, Elems, Tracked, CountedAt, Value, Dated, AllDropped, Unfit,
           Outranks;
      BlockIsElems();
      assert Tracked(pool, mod, over, inBlock, t);
      var k := Counting(pool, vtx, mod, over, t);
      assert KeysOk(pool) && CostsOk(pool);
      assert Sized(pool, t, m) by { TrackedIsSized(pool, mod, over, inBlock, t); }
      hide Sized, PaysNoMore;
      forall u | u in pool.txs - inBlock
        ensures Unfit(pool, Drafted(), failed, u) || LeftBehind(u, failed, t, m)
      {
        if !Done(mod, waiting, failed, u) {
          assert Tracked(pool, mod, over, inBlock, u);
          var n := Counting(pool, vtx, mod, over, u);
          assert Sized(pool, u, Value(pool, mod, u)) by { TrackedIsSized(pool, mod, over, inBlock, u); }
          OutrankedPaysNoMore(pool, u, Value(pool, mod, u), t, m);
          assert LeftBehind(u, failed, t, m);
        }
      }
    }

    lemma {:induction false} Keeps(mod: map<Tx, Modified>, waiting: seq<Tx>, failed: set<Tx>, over: map<Tx, set<Tx>>)
      requires Going(mod, waiting, failed, over)
      ensures Valid()
    {
      hide Valid, Tracks, Settled;
    }

    // resetBlock, addPackageTxs and the coinbase: it collects the subsidy and every fee,
    // so the fees of the template with the coinbase's own add up to nothing.
    method CreateNewBlock(order: seq<Tx>, subsidy: int) returns (coinbaseValue: int, coinbaseFee: int, ghost stop: Stop)
      requires Valid() && Ranked(pool, order)
      modifies this
      ensures Valid() && Stopped(stop)
      ensures coinbaseValue == subsidy + SeqSum(vTxFees) && coinbaseFee + SeqSum(vTxFees) == 0
    {
      hide GraphOk, CostsOk, TotalsOk, Ancestors, Going, Stopped, Ranked;
      assert nBlockMaxWeight >= 4000 by { RoomForCoinbase(); }
      ResetBlock();
      var n;
      n, stop := AddPackageTxs(order);
      FeesOfTemplate(pool, vtx, vTxFees);
      coinbaseValue, coinbaseFee := nFees + subsidy, -nFees;
    }

    lemma {:induction false} RoomForCoinbase()
      requires Valid()
      ensures nBlockMaxWeight >= 4000
    {
      hide GraphOk, TotalsOk, Ancestors, Sum;
      SizeCoversWeight(pool, inBlock);
    }

    lemma {:induction false} StartGoing(mod: map<Tx, Modified>, order: seq<Tx>)
      requires Valid() && Elems(order) == pool.txs && mod.Keys <= pool.txs
      requires forall d :: d in pool.txs ==> Shifted(pool, map[], mod, d, Due(pool, inBlock, inBlock, d))
      ensures Going(mod, order[0..], {}, map[])
    {
      hide GraphOk, CostsOk, TotalsOk, Ancestors, Sum, Shifted, Template, Totals, Limits, Tracks, Unfit;
      StartTracks(pool);
      TemplateIsClosed();
      var none: map<Tx, Modified> := map[];
      assert none - inBlock == none;
      InclusionTracks(pool, none, mod, map[], {}, inBlock);
      assert {} + inBlock == inBlock;
      assert forall t :: t in pool.txs ==> t in Elems(order) && t in order[0..];
    }

    // An entry that is not waiting for its turn can be passed over.
    lemma {:induction false} Skip(mod: map<Tx, Modified>, order: seq<Tx>, i: nat, failed: set<Tx>, over: map<Tx, set<Tx>>)
      requires i < |order| && Going(mod, order[i..], failed, over)
      requires order[i] in mod || order[i] in inBlock || order[i] in failed
      ensures Going(mod, order[i + 1..], failed, over)
    {
      hide PoolOk, Template, Totals, Limits, Tracks, Settled, Dated, Elems, AllDropped;
      BlockIsElems();
      SettledSkip(pool, Drafted(), mod, order, i, failed);
    }

    // A package that was looked at and left out does not fit, as it is counted.
    lemma {:induction false} Rejected(mod: map<Tx, Modified>, order: seq<Tx>, i: nat, failed: set<Tx>, over: map<Tx, set<Tx>>,
                                      t: Tx, usingModified: bool)
      requires i <= |order| && Going(mod, order[i..], failed, over) && t in pool.txs - inBlock
      requires if usingModified then t in mod else i < |order| && order[i] == t && t !in mod && t !in failed
      requires TestPackage(Value(pool, mod, t).size, Value(pool, mod, t).sigOps) ==> !(Rest(pool, inBlock, t) <= allowed)
      ensures usingModified ==> Going(mod - {t}, order[i..], failed + {t}, over[t := Inside(pool, inBlock, t)])
      ensures !usingModified ==> Going(mod, order[i + 1..], failed, over)
      ensures !TestPackage(Value(pool, mod, t).size, Value(pool, mod, t).sigOps) ==>
        TooBig(pool, Drafted(), if usingModified then failed + {t} else failed, t)
    {
      hide GraphOk, CostsOk, TotalsOk, Template, Totals, Limits, Elems, Tracked, CountedAt, Value, Rest, Inside, Early, Settled,
           Dated, AllDropped;
      BlockIsElems();
      assert Tracked(pool, mod, over, inBlock, t);
      var m, d := Value(pool, mod, t), Drafted();
      var k := Counting(pool, vtx, mod, over, t);
      if !TestPackage(m.size, m.sigOps) {
        assert TooBigAt(pool, d, t, m, k);
        assert TooBig(pool, d, failed, t) && TooBig(pool, d, failed + {t}, t);
      }
      assert Unfit(pool, d, failed, t) && Unfit(pool, d, failed + {t}, t);
      hide TooBig;
      if usingModified {
        FailingTracks(pool, mod, over, inBlock, t);
        DateOf(over, t);
        SettledDrop(pool, d, mod, order[i..], failed, t);
        DropOne(failed, t);
      } else {
        SettledPass(pool, d, mod, order, i, failed);
      }
      hide Tracks, Unfit;
    }

    // The first time that an entry is dropped it is counted exactly.
    lemma {:induction false} DropOne(failed: set<Tx>, t: Tx)
      requires Valid() && AllDropped(pool, Drafted(), failed) && Unfit(pool, Drafted(), failed, t)
      ensures AllDropped(pool, Drafted(), failed + {t})
    {
      hide GraphOk, CostsOk, TotalsOk, Template, Limits, Ancestors, FeesShifted;
      if t !in failed {
        BlockIsElems();
        assert vtx[..|vtx|] == vtx;
        NoExcess(pool, vtx, t);
        hide Sum, Elems, Rest, Early, Inside, Package;
        assert DroppedAt(pool, Drafted(), t, |vtx|);
      }
    }

    lemma {:induction false} DateOf(over: map<Tx, set<Tx>>, t: Tx)
      requires Template() && Dated(pool, vtx, over)
      ensures Dated(pool, vtx, over[t := Inside(pool, inBlock, t)])
    {
      assert vtx[..|vtx|] == vtx;
      assert Early(pool, vtx, |vtx|, t) == Inside(pool, inBlock, t) by { BlockIsElems(); }
      hide Template, Early, Inside;
    }

    lemma {:induction false} Finished(mod: map<Tx, Modified>, failed: set<Tx>, over: map<Tx, set<Tx>>)
      requires Going(mod, [], failed, over) && mod == map[]
      ensures Stopped(Exhausted(failed))
    {
      hide PoolOk, Template, Totals, Limits, Tracks, Unfit, Dated, Elems, AllDropped;
      BlockIsElems();
    }

    lemma {:induction false} ReadyPackage(t: Tx, package: set<Tx>)
      requires PoolOk(pool) && Template() && t in pool.txs - inBlock && package == Rest(pool, inBlock, t)
      ensures package <= pool.txs - inBlock && package <= pool.countAll.Keys
      ensures Closed(pool, inBlock) && Closed(pool, inBlock + package)
    {
      hide GraphOk, CostsOk, TotalsOk;
      assert Ancestors(pool, t) <= pool.txs;
      TemplateIsClosed();
      PackageCloses(pool, inBlock, t);
    }

    lemma {:induction false} TemplateIsClosed()
      requires Template()
      ensures Closed(pool, inBlock)
    {
      hide Ancestors;
      forall t | t in inBlock
        ensures Ancestors(pool, t) <= inBlock
      {
        assert t in Elems(vtx);
        var i :| 0 <= i < |vtx| && vtx[i] == t;
        assert Elems(vtx[..i]) <= Elems(vtx);
      }
    }
  }

  // The totals of a package are enough to bound what it adds to the block.
  lemma {:induction false} PackageFits(pool: Pool, mod: map<Tx, Modified>, over: map<Tx, set<Tx>>, inBlock: set<Tx>, t: Tx)
    requires PoolOk(pool) && Tracks(pool, mod, over, inBlock) && t in pool.txs - inBlock
    ensures 0 <= Sum(pool.weight, Rest(pool, inBlock, t)) <= WITNESS_SCALE_FACTOR * Value(pool, mod, t).size
    ensures 0 <= Sum(pool.sigOps, Rest(pool, inBlock, t)) <= Value(pool, mod, t).sigOps
    ensures mod.Keys <= pool.txs
  {
    hide GraphOk, TotalsOk, Sum, FeesShifted;
    assert Tracked(pool, mod, over, inBlock, t);
    SizeCoversWeight(pool, Rest(pool, inBlock, t));
    SumNonNegative(pool.sigOps, Rest(pool, inBlock, t));
    SumNonNegative(pool.size, Excess(over, t));
    SumNonNegative(pool.sigOps, Excess(over, t));
  }

  ghost function SeqSum(s: seq<int>): int {
    if s == [] then 0 else SeqSum(s[..|s| - 1]) + s[|s| - 1]
  }

  lemma {:induction false} FeesOfTemplate(pool: Pool, s: seq<Tx>, fees: seq<int>)
    requires NoDuplicates(s) && |fees| == |s| && forall i :: 0 <= i < |s| ==> fees[i] == At(pool.fee, s[i])
    ensures SeqSum(fees) == Sum(pool.fee, Elems(s))
  {
    if s != [] {
      var n := |s| - 1;
      FeesOfTemplate(pool, s[..n], fees[..n]);
      SumWithout(pool.fee, Elems(s), s[n]);
      assert Elems(s[..n]) == Elems(s) - {s[n]};
    }
  }

  lemma {:induction false} OrderedAppend(pool: Pool, s: seq<Tx>, t: Tx)
    requires Ordered(pool, {}, s) && Ancestors(pool, t) <= Elems(s)
    ensures Ordered(pool, {}, s + [t])
  {
    hide Ancestors;
    forall i | 0 <= i < |s| + 1
      ensures Ancestors(pool, (s + [t])[i]) <= {} + Elems((s + [t])[..i])
    {
      assert (s + [t])[..i] == s[..i];
    }
  }
}
