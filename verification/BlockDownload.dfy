// Choosing the next blocks to ask a peer for (src/net_processing.cpp).

module BlockDownload {
  import opened BlockTree
  import opened ActiveChain

  type NodeId = int
  const NOBODY: NodeId := -1
  const BLOCK_DOWNLOAD_WINDOW := 1024

  // What is known when the peer is looked at: the block index and the active chain, the
  // blocks with data and with all their ancestors' data, those whose headers are valid,
  // those that need a witness, and who each block in flight comes from.
  datatype Known = Known(
    tree: Tree, chain: seq<Block>, haveData: set<Block>, chainTx: set<Block>,
    validTree: set<Block>, needWitness: set<Block>, inFlight: map<Block, NodeId>)

  ghost predicate KnownOk(k: Known) {
    TreeOk(k.tree) && k.chain != [] && ChainOk(k.tree, k.chain)
  }

  predicate Stored(k: Known, b: Block)
    requires b in k.tree.height
  {
    b in k.haveData || (k.tree.height[b] < |k.chain| && k.chain[k.tree.height[b]] == b)
  }

  predicate Refused(k: Known, haveWitness: bool, b: Block) {
    b !in k.validTree || (!haveWitness && b in k.needWitness)
  }

  // The blocks at heights from lo to before hi on the way to best that are neither here
  // nor in flight, in order.
  ghost function Wanted(k: Known, best: Block, lo: nat, hi: nat): seq<Block>
    requires LinksOk(k.tree) && best in k.tree.height && hi <= k.tree.height[best] + 1
    decreases hi
  {
    if hi <= lo then []
    else
      var b := Ancestor(k.tree, best, hi - 1);
      Wanted(k, best, lo, hi - 1) + (if !Stored(k, b) && b !in k.inFlight then [b] else [])
  }

  // What the list promises: every block is on the way to the peer's best block, above lo,
  // neither here nor in flight, and heights ascend.
  ghost predicate Fetchable(k: Known, best: Block, lo: nat, hi: nat, blocks: seq<Block>)
    requires LinksOk(k.tree) && best in k.tree.height
  {
    && (forall i :: 0 <= i < |blocks| ==>
          && blocks[i] in k.tree.height && OnPath(k.tree, best, blocks[i]) && lo <= k.tree.height[blocks[i]] < hi
          && !Stored(k, blocks[i]) && blocks[i] !in k.inFlight)
    && (forall i, j :: 0 <= i < j < |blocks| ==> k.tree.height[blocks[i]] < k.tree.height[blocks[j]])
  }

  lemma {:induction false} FetchableNext(k: Known, best: Block, lo: nat, h: nat, blocks: seq<Block>, b: Block)
    requires LinksOk(k.tree) && best in k.tree.height && Fetchable(k, best, lo, h, blocks) && lo <= h
    requires b in k.tree.height && OnPath(k.tree, best, b) && k.tree.height[b] == h && !Stored(k, b) && b !in k.inFlight
    ensures Fetchable(k, best, lo, h + 1, blocks + [b])
  {
    hide LinksOk, OnPath, Stored;
    var more := blocks + [b];
    forall i, j | 0 <= i < j < |more|
      ensures more[i] in k.tree.height && more[j] in k.tree.height && k.tree.height[more[i]] < k.tree.height[more[j]]
    {
    }
  }

  lemma {:induction false} FetchableWider(k: Known, best: Block, lo: nat, h: nat, h': nat, blocks: seq<Block>)
    requires LinksOk(k.tree) && best in k.tree.height && Fetchable(k, best, lo, h, blocks) && h <= h'
    ensures Fetchable(k, best, lo, h', blocks)
  {
    hide LinksOk, OnPath, Stored;
  }

  lemma {:induction false} WantedIsFetchable(k: Known, best: Block, lo: nat, hi: nat)
    requires LinksOk(k.tree) && best in k.tree.height && hi <= k.tree.height[best] + 1
    ensures Fetchable(k, best, lo, hi, Wanted(k, best, lo, hi))
    decreases hi
  {
    hide LinksOk, Ancestor, Stored;
    if hi > lo {
      WantedIsFetchable(k, best, lo, hi - 1);
      var b := Ancestor(k.tree, best, hi - 1);
      if !Stored(k, b) && b !in k.inFlight {
        FetchableNext(k, best, lo, hi - 1, Wanted(k, best, lo, hi - 1), b);
      } else {
        FetchableWider(k, best, lo, hi - 1, hi, Wanted(k, best, lo, hi - 1));
      }
    }
  }

  // ---- the search ----

  // The list, the last common block, and the first peer that a block in flight waits for.
  datatype Search = Search(blocks: seq<Block>, common: Block, waitingFor: NodeId)

  // Here with all its ancestors.
  predicate Linked(k: Known, b: Block)
    requires b in k.tree.height
  {
    Stored(k, b) && b in k.chainTx
  }

  // Not here, but in flight.
  predicate Awaited(k: Known, b: Block)
    requires b in k.tree.height
  {
    !Stored(k, b) && b in k.inFlight
  }

  predicate Wants(k: Known, b: Block)
    requires b in k.tree.height
  {
    !Stored(k, b) && b !in k.inFlight
  }

  // The last linked block before height hi on the way to best, or base.
  ghost function CommonAt(k: Known, best: Block, base: Block, lo: nat, hi: nat): Block
    requires LinksOk(k.tree) && best in k.tree.height && hi <= k.tree.height[best] + 1
    decreases hi
  {
    if hi <= lo then base
    else
      var b := Ancestor(k.tree, best, hi - 1);
      if Linked(k, b) then b else CommonAt(k, best, base, lo, hi - 1)
  }

  // The peer that the first awaited block from lo to before hi comes from.
  ghost function WaitingAt(k: Known, best: Block, lo: nat, hi: nat): NodeId
    requires LinksOk(k.tree) && best in k.tree.height && hi <= k.tree.height[best] + 1
    decreases hi
  {
    if hi <= lo then NOBODY
    else
      var b := Ancestor(k.tree, best, hi - 1);
      var before := WaitingAt(k, best, lo, hi - 1);
      if before == NOBODY && Awaited(k, b) then k.inFlight[b] else before
  }

  // It is at height g, and nothing above that is linked; or it is base, and nothing at all is.
  lemma {:induction false} CommonIsHighest(k: Known, best: Block, base: Block, lo: nat, hi: nat) returns (g: int)
    requires LinksOk(k.tree) && best in k.tree.height && hi <= k.tree.height[best] + 1
    ensures if g < lo then CommonAt(k, best, base, lo, hi) == base
            else g < hi && CommonAt(k, best, base, lo, hi) == Ancestor(k.tree, best, g) && Linked(k, Ancestor(k.tree, best, g))
    ensures forall h: nat :: lo <= h < hi && g < h ==> !Linked(k, Ancestor(k.tree, best, h))
    decreases hi
  {
    hide LinksOk, Ancestor, Linked;
    g := -1;
    if hi > lo {
      if Linked(k, Ancestor(k.tree, best, hi - 1)) {
        g := hi - 1;
      } else {
        g := CommonIsHighest(k, best, base, lo, hi - 1);
      }
    }
  }

  // It is the peer of the block at height g, and nothing below that is awaited; or nothing is.
  lemma {:induction false} WaitingIsFirst(k: Known, best: Block, lo: nat, hi: nat) returns (g: int)
    requires LinksOk(k.tree) && best in k.tree.height && hi <= k.tree.height[best] + 1
    requires forall b :: b in k.inFlight ==> k.inFlight[b] != NOBODY
    ensures if g < hi then lo <= g && Awaited(k, Ancestor(k.tree, best, g))
                 && WaitingAt(k, best, lo, hi) == k.inFlight[Ancestor(k.tree, best, g)] != NOBODY
            else WaitingAt(k, best, lo, hi) == NOBODY
    ensures forall h: nat :: lo <= h < hi && h < g ==> !Awaited(k, Ancestor(k.tree, best, h))
    decreases hi
  {
    hide LinksOk, Ancestor, Stored;
    g := hi;
    if hi > lo {
      g := WaitingIsFirst(k, best, lo, hi - 1);
      if g >= hi - 1 {
        g := if Awaited(k, Ancestor(k.tree, best, hi - 1)) then hi - 1 else hi;
      }
    }
  }

  // Everything on the way from above base to before height h has been looked at.
  ghost predicate SearchOk(k: Known, best: Block, base: Block, h: nat, haveWitness: bool, s: Search)
    requires LinksOk(k.tree) && best in k.tree.height && base in k.tree.height && h <= k.tree.height[best] + 1
  {
    var lo := k.tree.height[base] + 1;
    && lo <= h && NoneRefused(k, best, lo, h, haveWitness)
    && s == Search(Wanted(k, best, lo, h), CommonAt(k, best, base, lo, h), WaitingAt(k, best, lo, h))
  }

  ghost predicate NoneRefused(k: Known, best: Block, lo: nat, hi: nat, haveWitness: bool)
    requires LinksOk(k.tree) && best in k.tree.height && hi <= k.tree.height[best] + 1
  {
    forall x :: lo <= x < hi ==> !Refused(k, haveWitness, Ancestor(k.tree, best, x))
  }

  // Why a search ends at height h: the list is full, the chain is over, the one block behind
  // the window was not wanted either, the peer's chain is refused from here on, or the block
  // behind the window is wanted.
  ghost predicate Ended(k: Known, best: Block, base: Block, h: nat, count: nat, haveWitness: bool, s: Search)
    requires LinksOk(k.tree) && best in k.tree.height && base in k.tree.height && h <= k.tree.height[best] + 1
  {
    || |s.blocks| == count
    || h == k.tree.height[best] + 1
    || h == k.tree.height[base] + BLOCK_DOWNLOAD_WINDOW + 2
    || Refused(k, haveWitness, Ancestor(k.tree, best, h))
    || (h == k.tree.height[base] + BLOCK_DOWNLOAD_WINDOW + 1 && Wants(k, Ancestor(k.tree, best, h)))
  }

  // The window keeps the peer from being asked for anything although the block behind it is
  // wanted, and another peer is to blame.
  ghost predicate Stalled(k: Known, best: Block, base: Block, h: nat, haveWitness: bool, nodeId: NodeId, s: Search)
    requires LinksOk(k.tree) && best in k.tree.height && base in k.tree.height
  {
    && h <= k.tree.height[best] && h == k.tree.height[base] + BLOCK_DOWNLOAD_WINDOW + 1
    && !Refused(k, haveWitness, Ancestor(k.tree, best, h)) && Wants(k, Ancestor(k.tree, best, h))
    && s.blocks == [] && s.waitingFor != NOBODY && s.waitingFor != nodeId
  }

  lemma {:induction false} SearchStep(k: Known, best: Block, base: Block, h: nat, haveWitness: bool, s: Search, s': Search, b: Block)
    requires LinksOk(k.tree) && best in k.tree.height && base in k.tree.height && h <= k.tree.height[best]
    requires SearchOk(k, best, base, h, haveWitness, s) && b == Ancestor(k.tree, best, h) && !Refused(k, haveWitness, b)
    requires s'.blocks == if Wants(k, b) then s.blocks + [b] else s.blocks
    requires s'.common == if Linked(k, b) then b else s.common
    requires s'.waitingFor == if Awaited(k, b) && s.waitingFor == NOBODY then k.inFlight[b] else s.waitingFor
    ensures SearchOk(k, best, base, h + 1, haveWitness, s')
  {
    hide LinksOk, Ancestor, Stored, Refused;
  }

  // One block of the path; stop says that the whole search is over.
  method LookAt(k: Known, best: Block, ghost base: Block, windowEnd: int, b: Block, h: nat, count: nat, haveWitness: bool,
                nodeId: NodeId, s0: Search)
    returns (stop: bool, s: Search, staller: NodeId, ghost next: nat)
    requires LinksOk(k.tree) && best in k.tree.height && base in k.tree.height && h <= k.tree.height[best]
    requires SearchOk(k, best, base, h, haveWitness, s0) && |s0.blocks| < count && b == Ancestor(k.tree, best, h)
    requires windowEnd == k.tree.height[base] + BLOCK_DOWNLOAD_WINDOW && h <= windowEnd + 1
    ensures next <= k.tree.height[best] + 1 && SearchOk(k, best, base, next, haveWitness, s)
    ensures next == h || (next == h + 1 && |s.blocks| <= count && (|s.blocks| > |s0.blocks| ==> h <= windowEnd))
    ensures next == h ==> s == s0
    ensures !stop ==> next == h + 1 && |s.blocks| < count && staller == NOBODY
    ensures stop ==> Ended(k, best, base, next, count, haveWitness, s)
    ensures stop ==> staller == if Stalled(k, best, base, next, haveWitness, nodeId, s) then s.waitingFor else NOBODY
  {
    hide LinksOk, Ancestor, Stored, SearchOk;
    s, staller, stop, next := s0, NOBODY, true, h;
    if Refused(k, haveWitness, b) {
      return;
    }
    if Stored(k, b) {
      if b in k.chainTx {
        s := s.(common := b);
      }
    } else if b !in k.inFlight {
      if h > windowEnd {
        if |s.blocks| == 0 && s.waitingFor != nodeId {
          staller := s.waitingFor;
        }
        return;
      }
      s := s.(blocks := s.blocks + [b]);
    } else if s.waitingFor == NOBODY {
      s := s.(waitingFor := k.inFlight[b]);
    }
    SearchStep(k, best, base, h, haveWitness, s0, s, b);
    next := h + 1;
    stop := |s.blocks| == count;
  }

  // Blocks from height lo up to b, found from the top down.
  method Successors(t: Tree, b: Block, lo: nat) returns (blocks: seq<Block>)
    requires TreeOk(t) && b in t.height && lo <= t.height[b]
    ensures |blocks| == t.height[b] - lo + 1
    ensures IsRun(t, b, lo, blocks)
  {
    hide Ancestor, LinksOk, SkipsOk, IsRun;
    var n := t.height[b] - lo + 1;
    blocks := [b];
    RunOfOne(t, b);
    while |blocks| < n
      invariant 1 <= |blocks| <= n && blocks[0] in t.prev
      invariant IsRun(t, b, lo + (n - |blocks|), blocks)
    {
      RunDown(t, b, lo + (n - |blocks|), blocks);
      blocks := [t.prev[blocks[0]]] + blocks;
    }
  }

  ghost predicate IsRun(t: Tree, b: Block, lo: nat, blocks: seq<Block>)
    requires LinksOk(t) && b in t.height
  {
    lo + |blocks| <= t.height[b] + 1 && forall i :: 0 <= i < |blocks| ==> blocks[i] == Ancestor(t, b, lo + i)
  }

  lemma {:induction false} RunOfOne(t: Tree, b: Block)
    requires LinksOk(t) && b in t.height
    ensures IsRun(t, b, t.height[b], [b]) && b in t.prev
  {
    AncestorSelf(t, b);
  }

  lemma {:induction false} RunDown(t: Tree, b: Block, lo: nat, blocks: seq<Block>)
    requires LinksOk(t) && b in t.height && blocks != [] && lo > 0 && IsRun(t, b, lo, blocks)
    ensures blocks[0] in t.prev && t.prev[blocks[0]] in t.prev && IsRun(t, b, lo - 1, [t.prev[blocks[0]]] + blocks)
  {
    hide Ancestor;
    AncestorStep(t, b, lo - 1);
    assert blocks[0] == Ancestor(t, b, lo);
    hide IsRun;
    RunPush(t, b, lo, blocks, t.prev[blocks[0]]);
  }

  lemma {:induction false} RunPush(t: Tree, b: Block, lo: nat, blocks: seq<Block>, x: Block)
    requires LinksOk(t) && b in t.height && lo > 0 && IsRun(t, b, lo, blocks) && lo <= t.height[b] && x == Ancestor(t, b, lo - 1)
    ensures IsRun(t, b, lo - 1, [x] + blocks)
  {
    hide Ancestor, LinksOk;
    var more := [x] + blocks;
    forall i | 0 <= i < |more|
      ensures more[i] == Ancestor(t, b, lo - 1 + i)
    {
      if i > 0 {
        assert blocks[i - 1] == Ancestor(t, b, lo + (i - 1));
      }
    }
  }

  method LookAtAll(k: Known, best: Block, ghost base: Block, windowEnd: int, batch: seq<Block>, h: nat, count: nat,
                   haveWitness: bool, nodeId: NodeId, s0: Search)
    returns (stop: bool, s: Search, staller: NodeId, ghost next: nat)
    requires LinksOk(k.tree) && best in k.tree.height && base in k.tree.height && h + |batch| <= k.tree.height[best] + 1
    requires SearchOk(k, best, base, h, haveWitness, s0) && |s0.blocks| < count
    requires IsRun(k.tree, best, h, batch) && h + |batch| <= windowEnd + 2
    requires windowEnd == k.tree.height[base] + BLOCK_DOWNLOAD_WINDOW && Wanting(k, windowEnd, s0)
    ensures next <= k.tree.height[best] + 1 && SearchOk(k, best, base, next, haveWitness, s) && |s.blocks| <= count
    ensures Wanting(k, windowEnd, s)
    ensures !stop ==> next == h + |batch| && |s.blocks| < count && staller == NOBODY
    ensures stop ==> Ended(k, best, base, next, count, haveWitness, s)
    ensures stop ==> staller == if Stalled(k, best, base, next, haveWitness, nodeId, s) then s.waitingFor else NOBODY
  {
    hide LinksOk, Ancestor, SearchOk, Ended, Stalled;
    s, staller, stop, next := s0, NOBODY, false, h;
    var i := 0;
    while i < |batch|
      invariant 0 <= i <= |batch| && next == h + i && SearchOk(k, best, base, next, haveWitness, s) && |s.blocks| < count
      invariant staller == NOBODY && !stop && Wanting(k, windowEnd, s)
    {
      ghost var before := s;
      stop, s, staller, next := LookAt(k, best, base, windowEnd, batch[i], h + i, count, haveWitness, nodeId, s);
      StillWanting(k, best, base, windowEnd, h + i, next, haveWitness, before, s);
      if stop {
        return;
      }
      i := i + 1;
    }
  }

  // Nothing past the window is on the list.
  ghost predicate Wanting(k: Known, windowEnd: int, s: Search) {
    forall i :: 0 <= i < |s.blocks| ==> s.blocks[i] in k.tree.height && k.tree.height[s.blocks[i]] <= windowEnd
  }

  lemma {:induction false} StillWanting(k: Known, best: Block, base: Block, windowEnd: int, h: nat, next: nat, haveWitness: bool,
                                        s0: Search, s: Search)
    requires LinksOk(k.tree) && best in k.tree.height && base in k.tree.height && h <= k.tree.height[best]
    requires SearchOk(k, best, base, h, haveWitness, s0) && Wanting(k, windowEnd, s0)
    requires next == h ==> s == s0
    requires next == h || (next == h + 1 && SearchOk(k, best, base, next, haveWitness, s) && (|s.blocks| > |s0.blocks| ==> h <= windowEnd))
    ensures Wanting(k, windowEnd, s)
  {
    hide LinksOk, Stored, CommonAt, WaitingAt, NoneRefused;
  }

  // What a search that ended at height h gives, from the last common block it started from:
  // all that is wanted and not refused, the last linked block, and whom to blame.
  ghost predicate FoundAt(k: Known, best: Block, base: Block, count: nat, haveWitness: bool, nodeId: NodeId, s: Search,
                          staller: NodeId, h: nat)
    requires LinksOk(k.tree) && best in k.tree.height
  {
    && base in k.tree.height && OnPath(k.tree, best, base) && h <= k.tree.height[best] + 1
    && SearchOk(k, best, base, h, haveWitness, s) && Ended(k, best, base, h, count, haveWitness, s)
    && |s.blocks| <= count
    && Fetchable(k, best, k.tree.height[base] + 1, k.tree.height[base] + BLOCK_DOWNLOAD_WINDOW + 1, s.blocks)
    && staller == if Stalled(k, best, base, h, haveWitness, nodeId, s) then s.waitingFor else NOBODY
  }

  ghost predicate Found(k: Known, best: Block, base: Block, count: nat, haveWitness: bool, nodeId: NodeId, s: Search, staller: NodeId)
    requires LinksOk(k.tree) && best in k.tree.height
  {
    exists h :: FoundAt(k, best, base, count, haveWitness, nodeId, s, staller, h)
  }

  lemma {:induction false} Finish(k: Known, best: Block, base: Block, count: nat, haveWitness: bool, nodeId: NodeId, s: Search,
                                  staller: NodeId, h: nat)
    requires LinksOk(k.tree) && best in k.tree.height && base in k.tree.height && OnPath(k.tree, best, base)
    requires h <= k.tree.height[best] + 1 && SearchOk(k, best, base, h, haveWitness, s)
    requires Ended(k, best, base, h, count, haveWitness, s)
    requires |s.blocks| <= count && Wanting(k, k.tree.height[base] + BLOCK_DOWNLOAD_WINDOW, s)
    requires staller == if Stalled(k, best, base, h, haveWitness, nodeId, s) then s.waitingFor else NOBODY
    ensures Found(k, best, base, count, haveWitness, nodeId, s, staller)
  {
    hide LinksOk, OnPath, Stored, Wanted, Ended, Stalled, CommonAt, WaitingAt, NoneRefused;
    WantedIsFetchable(k, best, k.tree.height[base] + 1, h);
    assert FoundAt(k, best, base, count, haveWitness, nodeId, s, staller, h);
  }

  // The loop over batches of at least 128 blocks.
  method Walk(k: Known, best: Block, base: Block, count: nat, haveWitness: bool, nodeId: NodeId)
    returns (s: Search, staller: NodeId)
    requires KnownOk(k) && best in k.tree.height && count > 0 && base in k.tree.height && OnPath(k.tree, best, base)
    ensures Found(k, best, base, count, haveWitness, nodeId, s, staller)
  {
    hide LinksOk, Ancestor, SkipsOk, SearchOk, Ended, Stalled, OnPath, Found, Wanting, IsRun;
    var windowEnd := k.tree.height[base] + BLOCK_DOWNLOAD_WINDOW;
    var maxHeight := if k.tree.height[best] < windowEnd + 1 then k.tree.height[best] else windowEnd + 1;
    s, staller := Search([], base, NOBODY), NOBODY;
    var walk := k.tree.height[base];
    SearchStart(k, best, base, haveWitness);
    while walk < maxHeight
      invariant k.tree.height[base] <= walk <= maxHeight && SearchOk(k, best, base, walk + 1, haveWitness, s)
      invariant |s.blocks| < count && staller == NOBODY && Wanting(k, windowEnd, s)
      decreases maxHeight - walk
    {
      var room := if count - |s.blocks| > 128 then count - |s.blocks| else 128;
      var nToFetch := if maxHeight - walk < room then maxHeight - walk else room;
      var batch := Batch(k.tree, best, walk + 1, walk + nToFetch);
      var stop;
      ghost var next;
      stop, s, staller, next := LookAtAll(k, best, base, windowEnd, batch, walk + 1, count, haveWitness, nodeId, s);
      if stop {
        Finish(k, best, base, count, haveWitness, nodeId, s, staller, next);
        return;
      }
      walk := walk + nToFetch;
    }
    RanOut(k, best, base, walk + 1, count, haveWitness, nodeId, s);
    Finish(k, best, base, count, haveWitness, nodeId, s, staller, walk + 1);
  }

  lemma {:induction false} RanOut(k: Known, best: Block, base: Block, h: nat, count: nat, haveWitness: bool, nodeId: NodeId, s: Search)
    requires LinksOk(k.tree) && best in k.tree.height && base in k.tree.height && h <= k.tree.height[best] + 1
    requires h == k.tree.height[best] + 1 || h == k.tree.height[base] + BLOCK_DOWNLOAD_WINDOW + 2
    ensures Ended(k, best, base, h, count, haveWitness, s) && !Stalled(k, best, base, h, haveWitness, nodeId, s)
  {
  }

  lemma {:induction false} SearchStart(k: Known, best: Block, base: Block, haveWitness: bool)
    requires LinksOk(k.tree) && best in k.tree.height && base in k.tree.height && OnPath(k.tree, best, base)
    ensures k.tree.height[base] <= k.tree.height[best]
    ensures SearchOk(k, best, base, k.tree.height[base] + 1, haveWitness, Search([], base, NOBODY))
    ensures Wanting(k, k.tree.height[base] + BLOCK_DOWNLOAD_WINDOW, Search([], base, NOBODY))
  {
  }

  // The blocks from one height to another on the way to best.
  method Batch(t: Tree, best: Block, lo: nat, hi: nat) returns (batch: seq<Block>)
    requires TreeOk(t) && best in t.height && lo <= hi <= t.height[best]
    ensures |batch| == hi - lo + 1 && IsRun(t, best, lo, batch)
  {
    hide SkipsOk, Ancestor, IsRun;
    var b, steps := GetAncestor(t, best, hi);
    batch := Successors(t, b, lo);
    RunOfAncestor(t, best, hi, lo, batch);
  }

  lemma {:induction false} RunOfAncestor(t: Tree, best: Block, hi: nat, lo: nat, blocks: seq<Block>)
    requires LinksOk(t) && best in t.height && hi <= t.height[best] && IsRun(t, Ancestor(t, best, hi), lo, blocks)
    ensures IsRun(t, best, lo, blocks)
  {
    hide LinksOk, Ancestor;
    forall i | 0 <= i < |blocks|
      ensures blocks[i] == Ancestor(t, best, lo + i)
    {
      AncestorOfAncestor(t, best, hi, lo + i);
    }
  }

  // Without a last common block, the guess is our block at the height of the peer's best.
  function Start(k: Known, best: Block, last: Block): Block
    requires best in k.tree.height && k.chain != []
  {
    if last != NULL then last
    else k.chain[if k.tree.height[best] < |k.chain| - 1 then k.tree.height[best] else |k.chain| - 1]
  }

  // ProcessBlockAvailability: what a peer announced last may be in the index by now. found is
  // the entry for it, or NULL.
  function BestKnown(best: Block, found: Block, work: Block -> nat): (r: Block)
    ensures r == best || r == found
    ensures best != NULL ==> r != NULL && work(r) >= work(best)
    ensures found != NULL && work(found) > 0 ==> r != NULL && work(r) >= work(found)
  {
    if found != NULL && work(found) > 0 && (best == NULL || work(found) >= work(best)) then found else best
  }

  // The peer has at least as much work as our tip and as the minimum.
  predicate Interesting(k: Known, best: Block, work: Block -> nat, minimumWork: nat)
    requires k.chain != []
  {
    best != NULL && work(best) >= work(k.chain[|k.chain| - 1]) && work(best) >= minimumWork
  }

  // The two blocks grow from one root, as all branches do that meet at the genesis block.
  ghost predicate SameRoot(k: Known, a: Block, b: Block)
    requires LinksOk(k.tree)
  {
    a in k.tree.height && b in k.tree.height && Ancestor(k.tree, a, 0) == Ancestor(k.tree, b, 0)
  }

  // A block with a valid header that this peer can give, and that is neither stored, nor in the
  // active chain, nor in flight.
  ghost predicate ToFetch(k: Known, haveWitness: bool, b: Block) {
    && b in k.validTree && (haveWitness || b !in k.needWitness)
    && b !in k.haveData && b !in k.inFlight && b in k.tree.height
    && !(k.tree.height[b] < |k.chain| && k.chain[k.tree.height[b]] == b)
  }

  lemma {:induction false} FoundToFetch(k: Known, best: Block, base: Block, count: nat, haveWitness: bool, nodeId: NodeId, s: Search,
                                        staller: NodeId)
    requires LinksOk(k.tree) && best in k.tree.height && Found(k, best, base, count, haveWitness, nodeId, s, staller)
    ensures |s.blocks| <= count && forall b :: b in s.blocks ==> ToFetch(k, haveWitness, b)
  {
    hide LinksOk, Ancestor, Ended, Stalled, CommonAt, WaitingAt;
    var h :| FoundAt(k, best, base, count, haveWitness, nodeId, s, staller, h);
    var lo := k.tree.height[base] + 1;
    WantedIsFetchable(k, best, lo, h);
    forall b | b in s.blocks
      ensures ToFetch(k, haveWitness, b)
    {
      var i :| 0 <= i < |s.blocks| && s.blocks[i] == b;
      assert OnPath(k.tree, best, b) && lo <= k.tree.height[b] < h && !Stored(k, b) && b !in k.inFlight;
      assert !Refused(k, haveWitness, Ancestor(k.tree, best, k.tree.height[b]));
    }
  }

  // Without a common block from before, the search starts at the fork: the highest block of the
  // active chain on the way to the peer's best block.
  lemma {:induction false} StartIsFork(k: Known, best: Block, r: Block)
    requires KnownOk(k) && best in k.tree.height && Start(k, best, NULL) in k.tree.height
    requires HighestCommon(k.tree, Start(k, best, NULL), best, r) && r != NULL
    ensures r in k.tree.height && k.tree.height[r] < |k.chain| && k.chain[k.tree.height[r]] == r && OnPath(k.tree, best, r)
    ensures ApartFrom(k.tree, k.chain, best, k.tree.height[r] + 1)
  {
    hide SkipsOk;
    var h := if k.tree.height[best] < |k.chain| - 1 then k.tree.height[best] else |k.chain| - 1;
    var start := k.chain[h];
    assert k.tree.height[start] == h;
    forall g | 0 <= g <= h
      ensures k.chain[g] == Ancestor(k.tree, start, g)
    {
      ContainedPath(k.tree, k.chain, start, g);
    }
    hide Ancestor, LinksOk, ChainOk;
  }

  // Nothing is asked of a peer without an interesting chain; otherwise the search starts
  // at the highest block that the peer's best block and the last common block share.
  method FindNextBlocksToDownload(k: Known, best0: Block, found: Block, last: Block, count: nat, haveWitness: bool, nodeId: NodeId,
                                  work: Block -> nat, minimumWork: nat)
    returns (blocks: seq<Block>, best: Block, common: Block, staller: NodeId)
    requires KnownOk(k) && (best0 == NULL || best0 in k.tree.height) && (found == NULL || found in k.tree.height)
    requires var b := BestKnown(best0, found, work); b != NULL ==> SameRoot(k, Start(k, b, last), b)
    ensures best == if count == 0 then best0 else BestKnown(best0, found, work)
    ensures count == 0 || best == NULL || work(best) < work(k.chain[|k.chain| - 1]) || work(best) < minimumWork ==>
      blocks == [] && common == last && staller == NOBODY
    ensures count != 0 && best != NULL && work(best) >= work(k.chain[|k.chain| - 1]) && work(best) >= minimumWork ==>
      exists base :: Start(k, best, last) in k.tree.height && HighestCommon(k.tree, Start(k, best, last), best, base) && base != NULL
        && (if base == best then blocks == [] && common == best && staller == NOBODY
            else exists w :: Found(k, best, base, count, haveWitness, nodeId, Search(blocks, common, w), staller))
    ensures |blocks| <= count && forall b :: b in blocks ==> ToFetch(k, haveWitness, b)
  {
    hide SkipsOk, Found, Ancestor, LinksOk, HighestCommon, ChainOk;
    blocks, best, common, staller := [], best0, last, NOBODY;
    if count == 0 {
      return;
    }
    best := BestKnown(best0, found, work);
    if !Interesting(k, best, work, minimumWork) {
      return;
    }
    var start := Start(k, best, last);
    common := LastCommonAncestor(k.tree, start, best);
    SharedRoot(k, start, best, common);
    var base := common;
    if common == best {
      assert HighestCommon(k.tree, start, best, base);
      return;
    }
    var s;
    s, staller := Walk(k, best, base, count, haveWitness, nodeId);
    blocks, common := s.blocks, s.common;
    FoundToFetch(k, best, base, count, haveWitness, nodeId, s, staller);
    assert s == Search(blocks, common, s.waitingFor);
    assert Found(k, best, base, count, haveWitness, nodeId, Search(blocks, common, s.waitingFor), staller);
    assert HighestCommon(k.tree, start, best, base);
  }

  lemma {:induction false} SharedRoot(k: Known, a: Block, b: Block, r: Block)
    requires KnownOk(k) && SameRoot(k, a, b) && HighestCommon(k.tree, a, b, r)
    ensures r != NULL && r in k.tree.height && OnPath(k.tree, b, r)
  {
    hide Ancestor, SkipsOk, ChainOk;
  }
}
