// Which blocks are being fetched from which peers (src/net_processing.cpp).

module InFlight {

  type NodeId = int
  type Hash = nat

  const MAX_BLOCKS_IN_TRANSIT_PER_PEER := 16

  // A block asked for, and whether its headers were validated when it was.
  datatype Queued = Queued(hash: Hash, validated: bool)

  // CNodeState, as far as it is counted somewhere else too.
  datatype Node = Node(queue: seq<Queued>, nBlocks: int, nValid: int, fSyncStarted: bool, fPreferred: bool, fProtect: bool)

  const FRESH := Node([], 0, 0, false, false, false)

  ghost function Validated(queue: seq<Queued>): nat {
    if queue == [] then 0 else Validated(queue[..|queue| - 1]) + (if queue[|queue| - 1].validated then 1 else 0)
  }

  lemma {:induction false} ValidatedAppend(a: seq<Queued>, b: seq<Queued>)
    ensures Validated(a + b) == Validated(a) + Validated(b)
  {
    if b == [] {
      assert a + b == a;
    } else {
      var n := |b| - 1;
      ValidatedAppend(a, b[..n]);
      assert (a + b)[..|a| + n] == a + b[..n];
    }
  }

  function Without(queue: seq<Queued>, i: nat): seq<Queued>
    requires i < |queue|
  {
    queue[..i] + queue[i + 1..]
  }

  lemma {:induction false} ValidatedWithout(queue: seq<Queued>, i: nat)
    requires i < |queue|
    ensures Validated(Without(queue, i)) == Validated(queue) - (if queue[i].validated then 1 else 0)
  {
    var a, m, b := queue[..i], [queue[i]], queue[i + 1..];
    assert queue == a + (m + b);
    ValidatedAppend(a, m + b);
    ValidatedAppend(m, b);
    ValidatedAppend(a, b);
    assert m[..0] == [];
  }

  // A peer's own counters are those of its queue, which has each block once.
  ghost predicate NodeOk(node: Node) {
    && node.nBlocks == |node.queue| && node.nValid == Validated(node.queue)
    && forall i, j :: 0 <= i < j < |node.queue| ==> node.queue[i].hash != node.queue[j].hash
  }

  ghost predicate Listed(queue: seq<Queued>, h: Hash) {
    exists i :: 0 <= i < |queue| && queue[i].hash == h
  }

  // ---- counting peers ----

  ghost function Having(nodes: map<NodeId, Node>, p: Node -> bool): set<NodeId> {
    set n | n in nodes && p(nodes[n])
  }

  function One(b: bool): int {
    if b then 1 else 0
  }

  lemma {:induction false} SizeBut(before: set<NodeId>, after: set<NodeId>, n: NodeId)
    requires before - {n} == after - {n}
    ensures |after| == |before| - One(n in before) + One(n in after)
  {
    assert |before| == |before - {n}| + One(n in before) by { SizeWithout(before, n); }
    SizeWithout(after, n);
  }

  lemma {:induction false} SizeWithout(s: set<NodeId>, n: NodeId)
    ensures |s| == |s - {n}| + One(n in s)
  {
    if n in s {
      assert s == (s - {n}) + {n};
    } else {
      assert s == s - {n};
    }
  }

  lemma {:induction false} HavingUpdate(nodes: map<NodeId, Node>, p: Node -> bool, n: NodeId, node: Node)
    ensures |Having(nodes[n := node], p)| == |Having(nodes, p)| - One(n in nodes && p(nodes[n])) + One(p(node))
  {
    var before, after := Having(nodes, p), Having(nodes[n := node], p);
    forall x
      ensures x in before - {n} <==> x in after - {n}
    {
    }
    assert before - {n} == after - {n};
    SizeBut(before, after, n);
  }

  lemma {:induction false} HavingRemove(nodes: map<NodeId, Node>, p: Node -> bool, n: NodeId)
    requires n in nodes
    ensures |Having(nodes - {n}, p)| == |Having(nodes, p)| - One(p(nodes[n]))
  {
    var before, after := Having(nodes, p), Having(nodes - {n}, p);
    forall x
      ensures x in before - {n} <==> x in after - {n}
    {
    }
    assert before - {n} == after - {n};
    SizeBut(before, after, n);
  }

  predicate Downloads(node: Node) {
    node.nValid > 0
  }

  predicate Prefers(node: Node) {
    node.fPreferred
  }

  predicate Syncs(node: Node) {
    node.fSyncStarted
  }

  predicate Protects(node: Node) {
    node.fProtect
  }

  // ---- the peers together ----

  ghost predicate NodesOk(nodes: map<NodeId, Node>) {
    forall n :: n in nodes ==> NodeOk(nodes[n])
  }

  ghost predicate InQueues(nodes: map<NodeId, Node>, inFlight: map<Hash, NodeId>) {
    forall h :: h in inFlight ==> inFlight[h] in nodes && Listed(nodes[inFlight[h]].queue, h)
  }

  ghost predicate QueuesBooked(nodes: map<NodeId, Node>, inFlight: map<Hash, NodeId>) {
    forall n, i :: n in nodes && 0 <= i < |nodes[n].queue| ==>
      nodes[n].queue[i].hash in inFlight && inFlight[nodes[n].queue[i].hash] == n
  }

  // mapBlocksInFlight and the queues say the same.
  ghost predicate LinksOk(nodes: map<NodeId, Node>, inFlight: map<Hash, NodeId>) {
    InQueues(nodes, inFlight) && QueuesBooked(nodes, inFlight)
  }

  // A peer with one block less, and with one more at the end of its queue.
  function Dropped(node: Node, i: nat): Node
    requires i < |node.queue|
  {
    node.(queue := Without(node.queue, i), nBlocks := node.nBlocks - 1, nValid := node.nValid - One(node.queue[i].validated))
  }

  function Pushed(node: Node, q: Queued): Node {
    node.(queue := node.queue + [q], nBlocks := node.nBlocks + 1, nValid := node.nValid + One(q.validated))
  }

  lemma {:induction false} DroppedOk(node: Node, i: nat)
    requires NodeOk(node) && i < |node.queue|
    ensures NodeOk(Dropped(node, i)) && !Listed(Dropped(node, i).queue, node.queue[i].hash)
    ensures forall j :: 0 <= j < |node.queue| - 1 ==> Dropped(node, i).queue[j] == node.queue[if j < i then j else j + 1]
    ensures forall h :: Listed(node.queue, h) && h != node.queue[i].hash ==> Listed(Dropped(node, i).queue, h)
  {
    hide Validated;
    ValidatedWithout(node.queue, i);
    var queue := Dropped(node, i).queue;
    assert forall j :: 0 <= j < |queue| ==> queue[j] == node.queue[if j < i then j else j + 1];
    forall h | Listed(node.queue, h) && h != node.queue[i].hash
      ensures Listed(queue, h)
    {
      var j :| 0 <= j < |node.queue| && node.queue[j].hash == h;
      assert queue[if j < i then j else j - 1] == node.queue[j];
    }
  }

  lemma {:induction false} PushedOk(node: Node, q: Queued)
    requires NodeOk(node) && !Listed(node.queue, q.hash)
    ensures NodeOk(Pushed(node, q)) && Listed(Pushed(node, q).queue, q.hash)
    ensures forall h :: Listed(node.queue, h) ==> Listed(Pushed(node, q).queue, h)
  {
    var queue, n := Pushed(node, q).queue, |node.queue|;
    assert queue[..n] == node.queue && queue[n] == q;
    forall h | Listed(node.queue, h)
      ensures Listed(queue, h)
    {
      var j :| 0 <= j < |node.queue| && node.queue[j].hash == h;
      assert queue[j].hash == h;
    }
  }

  lemma {:induction false} UnlinkKeeps(nodes: map<NodeId, Node>, inFlight: map<Hash, NodeId>, n: NodeId, i: nat)
    requires NodesOk(nodes) && LinksOk(nodes, inFlight) && n in nodes && i < |nodes[n].queue|
    ensures NodesOk(nodes[n := Dropped(nodes[n], i)])
    ensures LinksOk(nodes[n := Dropped(nodes[n], i)], inFlight - {nodes[n].queue[i].hash})
  {
    hide NodeOk, NodesOk;
    assert NodeOk(nodes[n]) by { NodeOfOk(nodes, n); }
    DroppedOk(nodes[n], i);
    NodesOkNext(nodes, n, Dropped(nodes[n], i));
    var h, node := nodes[n].queue[i].hash, Dropped(nodes[n], i);
    hide Dropped, Listed;
    assert inFlight[h] == n;
    UnlinkForward(nodes, inFlight, n, node, h);
    UnlinkBack(nodes, inFlight, n, node, h, i);
  }

  lemma {:induction false} UnlinkForward(nodes: map<NodeId, Node>, inFlight: map<Hash, NodeId>, n: NodeId, node: Node, hash: Hash)
    requires InQueues(nodes, inFlight) && n in nodes
    requires forall h :: Listed(nodes[n].queue, h) && h != hash ==> Listed(node.queue, h)
    ensures InQueues(nodes[n := node], inFlight - {hash})
  {
    hide Listed;
    forall h | h in inFlight - {hash}
      ensures inFlight[h] in nodes[n := node] && Listed(nodes[n := node][inFlight[h]].queue, h)
    {
      assert inFlight[h] in nodes && Listed(nodes[inFlight[h]].queue, h);
    }
  }

  lemma {:induction false} UnlinkBack(nodes: map<NodeId, Node>, inFlight: map<Hash, NodeId>, n: NodeId, node: Node, hash: Hash, i: nat)
    requires QueuesBooked(nodes, inFlight) && n in nodes && hash in inFlight && inFlight[hash] == n
    requires |node.queue| == |nodes[n].queue| - 1 && !Listed(node.queue, hash)
    requires forall j :: 0 <= j < |node.queue| ==> node.queue[j] == nodes[n].queue[if j < i then j else j + 1]
    ensures QueuesBooked(nodes[n := node], inFlight - {hash})
  {
    var nodes', rest := nodes[n := node], inFlight - {hash};
    forall m, k | m in nodes' && 0 <= k < |nodes'[m].queue|
      ensures nodes'[m].queue[k].hash in rest && rest[nodes'[m].queue[k].hash] == m
    {
      if m == n {
        assert node.queue[k] == nodes[n].queue[if k < i then k else k + 1];
        assert Listed(node.queue, node.queue[k].hash);
      } else {
        assert nodes[m].queue[k].hash in inFlight;
      }
    }
  }

  lemma {:induction false} LinkKeeps(nodes: map<NodeId, Node>, inFlight: map<Hash, NodeId>, n: NodeId, q: Queued)
    requires NodesOk(nodes) && LinksOk(nodes, inFlight) && n in nodes && q.hash !in inFlight
    ensures NodesOk(nodes[n := Pushed(nodes[n], q)])
    ensures LinksOk(nodes[n := Pushed(nodes[n], q)], inFlight[q.hash := n])
  {
    hide NodeOk, NodesOk;
    var node := Pushed(nodes[n], q);
    NotListedYet(nodes, inFlight, n, q.hash);
    assert NodeOk(nodes[n]) by { NodeOfOk(nodes, n); }
    PushedOk(nodes[n], q);
    NodesOkNext(nodes, n, node);
    hide Listed, Pushed, InQueues, QueuesBooked;
    LinkForward(nodes, inFlight, n, node, q.hash);
    LinkBack(nodes, inFlight, n, node, q);
  }

  lemma {:induction false} NotListedYet(nodes: map<NodeId, Node>, inFlight: map<Hash, NodeId>, n: NodeId, h: Hash)
    requires LinksOk(nodes, inFlight) && n in nodes && h !in inFlight
    ensures !Listed(nodes[n].queue, h)
  {
  }

  lemma {:induction false} NodeOfOk(nodes: map<NodeId, Node>, n: NodeId)
    requires NodesOk(nodes) && n in nodes
    ensures NodeOk(nodes[n])
  {
    hide NodeOk;
  }

  lemma {:induction false} NodesOkNext(nodes: map<NodeId, Node>, n: NodeId, node: Node)
    requires NodesOk(nodes) && NodeOk(node)
    ensures NodesOk(nodes[n := node])
  {
    hide NodeOk;
  }

  // Every block in flight is still in the queue of its peer.
  lemma {:induction false} LinkForward(nodes: map<NodeId, Node>, inFlight: map<Hash, NodeId>, n: NodeId, node: Node, hash: Hash)
    requires InQueues(nodes, inFlight) && n in nodes && Listed(node.queue, hash)
    requires forall h :: Listed(nodes[n].queue, h) ==> Listed(node.queue, h)
    ensures InQueues(nodes[n := node], inFlight[hash := n])
  {
    hide Listed;
    forall h | h in inFlight && h != hash
      ensures inFlight[h] in nodes[n := node] && Listed(nodes[n := node][inFlight[h]].queue, h)
    {
      assert inFlight[h] in nodes && Listed(nodes[inFlight[h]].queue, h);
    }
  }

  lemma {:induction false} LinkBack(nodes: map<NodeId, Node>, inFlight: map<Hash, NodeId>, n: NodeId, node: Node, q: Queued)
    requires QueuesBooked(nodes, inFlight) && n in nodes && q.hash !in inFlight && node.queue == nodes[n].queue + [q]
    ensures QueuesBooked(nodes[n := node], inFlight[q.hash := n])
  {
    hide Listed;
    var nodes', more := nodes[n := node], inFlight[q.hash := n];
    forall m, k | m in nodes' && 0 <= k < |nodes'[m].queue|
      ensures nodes'[m].queue[k].hash in more && more[nodes'[m].queue[k].hash] == m
    {
      if m != n || k < |nodes[n].queue| {
        assert nodes'[m].queue[k] == nodes[m].queue[k];
        assert nodes[m].queue[k].hash in inFlight;
      }
    }
  }

  lemma {:induction false} FlagsKeep(nodes: map<NodeId, Node>, inFlight: map<Hash, NodeId>, n: NodeId, node: Node)
    requires NodesOk(nodes) && LinksOk(nodes, inFlight) && n in nodes
    requires node.queue == nodes[n].queue && node.nBlocks == nodes[n].nBlocks && node.nValid == nodes[n].nValid
    ensures NodesOk(nodes[n := node]) && LinksOk(nodes[n := node], inFlight)
  {
    hide Validated, Listed;
  }

  datatype Event =
    | Connect(n: NodeId) | Asked(n: NodeId, h: Hash, validated: bool) | Received(h: Hash)
    | Flags(n: NodeId, sync: bool, preferred: bool, protect: bool) | Disconnect(n: NodeId)

  class PeerLogic {
    var nodes: map<NodeId, Node>
    var inFlight: map<Hash, NodeId>
    var nPeersWithValidatedDownloads: int
    var nPreferredDownload: int
    var nSyncStarted: int
    var nProtected: int

    ghost predicate Valid()
      reads this
    {
      NodesOk(nodes) && LinksOk(nodes, inFlight) && CountersOk()
    }

    // The global counters count the peers with the respective flag.
    ghost predicate CountersOk()
      reads this
    {
      && nPeersWithValidatedDownloads == |Having(nodes, Downloads)|
      && nPreferredDownload == |Having(nodes, Prefers)|
      && nSyncStarted == |Having(nodes, Syncs)|
      && nProtected == |Having(nodes, Protects)|
    }

    constructor ()
      ensures Valid() && nodes == map[] && inFlight == map[]
    {
      nodes, inFlight := map[], map[];
      nPeersWithValidatedDownloads, nPreferredDownload, nSyncStarted, nProtected := 0, 0, 0, 0;
    }

    lemma {:induction false} CountUpdate(n: NodeId, node: Node)
      requires n in nodes
      ensures |Having(nodes[n := node], Downloads)| == |Having(nodes, Downloads)| - One(Downloads(nodes[n])) + One(Downloads(node))
      ensures |Having(nodes[n := node], Prefers)| == |Having(nodes, Prefers)| - One(Prefers(nodes[n])) + One(Prefers(node))
      ensures |Having(nodes[n := node], Syncs)| == |Having(nodes, Syncs)| - One(Syncs(nodes[n])) + One(Syncs(node))
      ensures |Having(nodes[n := node], Protects)| == |Having(nodes, Protects)| - One(Protects(nodes[n])) + One(Protects(node))
    {
      HavingUpdate(nodes, Downloads, n, node);
      HavingUpdate(nodes, Prefers, n, node);
      HavingUpdate(nodes, Syncs, n, node);
      HavingUpdate(nodes, Protects, n, node);
    }

    // Returns whether the block was in flight.
    method MarkBlockAsReceived(h: Hash) returns (requested: bool, ghost at: nat)
      requires Valid()
      modifies this
      ensures Valid() && requested == (h in old(inFlight)) && inFlight == old(inFlight) - {h}
      ensures !requested ==> unchanged(this)
      ensures requested ==>
        var n := old(inFlight)[h];
        && n in old(nodes) && at < |old(nodes)[n].queue| && old(nodes)[n].queue[at].hash == h
        && nodes == old(nodes)[n := Dropped(old(nodes)[n], at)]
    {
      hide NodeOk, Having;
      at := 0;
      if h !in inFlight {
        return false, at;
      }
      var n := inFlight[h];
      var i := Find(nodes[n].queue, h);
      var node := Dropped(nodes[n], i);
      UnlinkKeeps(nodes, inFlight, n, i);
      CountUpdate(n, node);
      assert nodes[n].nValid >= One(nodes[n].queue[i].validated) by { DroppedOk(nodes[n], i); NonNegative(node); }
      if node.nValid == 0 && nodes[n].queue[i].validated {
        nPeersWithValidatedDownloads := nPeersWithValidatedDownloads - 1;
      }
      nodes := nodes[n := node];
      inFlight := inFlight - {h};
      requested, at := true, i;
    }

    // Returns false if the block was in flight from this peer already.
    method MarkBlockAsInFlight(n: NodeId, h: Hash, validated: bool) returns (added: bool)
      requires Valid() && n in nodes
      modifies this
      ensures Valid() && added == !(h in old(inFlight) && old(inFlight)[h] == n)
      ensures !added ==> unchanged(this)
      ensures added ==> inFlight == old(inFlight)[h := n] && n in nodes && nodes[n] == Pushed(old(nodes)[n], Queued(h, validated))
      ensures added ==> forall m :: m in nodes && m != n ==> m in old(nodes) && (nodes[m] == old(nodes)[m] || |nodes[m].queue| < |old(nodes)[m].queue|)
    {
      hide NodeOk, LinksOk, NodesOk, Having;
      if h in inFlight && inFlight[h] == n {
        return false;
      }
      ghost var at;
      var requested;
      requested, at := MarkBlockAsReceived(h);
      added := true;
      Enqueue(n, Queued(h, validated));
    }

    method Enqueue(n: NodeId, q: Queued)
      requires Valid() && n in nodes && q.hash !in inFlight
      modifies this
      ensures Valid() && nodes == old(nodes)[n := Pushed(old(nodes)[n], q)] && inFlight == old(inFlight)[q.hash := n]
    {
      hide NodeOk, LinksOk, Having;
      var node := Pushed(nodes[n], q);
      LinkKeeps(nodes, inFlight, n, q);
      CountUpdate(n, node);
      assert nodes[n].nValid >= 0 by { NonNegative(nodes[n]); }
      if node.nValid == 1 && q.validated {
        nPeersWithValidatedDownloads := nPeersWithValidatedDownloads + 1;
      }
      nodes := nodes[n := node];
      inFlight := inFlight[q.hash := n];
    }

    // No peer has more blocks in flight than the limit.
    ghost predicate WithinLimit()
      reads this
    {
      forall n :: n in nodes ==> |nodes[n].queue| <= MAX_BLOCKS_IN_TRANSIT_PER_PEER
    }

    // The requests of the handlers: each first looks at the peer's counter.
    method Request(n: NodeId, h: Hash, validated: bool)
      requires Valid() && WithinLimit() && n in nodes
      modifies this
      ensures Valid() && WithinLimit()
      ensures if |old(nodes)[n].queue| < MAX_BLOCKS_IN_TRANSIT_PER_PEER then inFlight == old(inFlight)[h := n] else unchanged(this)
    {
      assert nodes[n].nBlocks == |nodes[n].queue| by { assert NodeOk(nodes[n]); }
      if nodes[n].nBlocks < MAX_BLOCKS_IN_TRANSIT_PER_PEER {
        hide Valid;
        var added := MarkBlockAsInFlight(n, h, validated);
      }
    }

    // Any run of connecting, requesting, receiving and disconnecting.
    method Run(events: seq<Event>)
      requires Valid() && WithinLimit()
      modifies this
      ensures Valid() && WithinLimit()
    {
      hide Valid;
      var i := 0;
      while i < |events|
        invariant 0 <= i <= |events| && Valid() && WithinLimit()
      {
        match events[i] {
        case Connect(n) =>
          if n !in nodes {
            InitializeNode(n);
          }
        case Asked(n, h, validated) =>
          if n in nodes {
            Request(n, h, validated);
          }
        case Received(h) =>
          ghost var at;
          var requested;
          requested, at := MarkBlockAsReceived(h);
        case Flags(n, sync, preferred, protect) =>
          if n in nodes {
            SetFlags(n, sync, preferred, protect);
          }
        case Disconnect(n) =>
          if n in nodes {
            FinalizeNode(n);
          }
        }
        i := i + 1;
      }
    }

    method InitializeNode(n: NodeId)
      requires Valid() && n !in nodes
      modifies this
      ensures Valid() && nodes == old(nodes)[n := FRESH] && inFlight == old(inFlight)
    {
      HavingUpdate(nodes, Downloads, n, FRESH);
      HavingUpdate(nodes, Prefers, n, FRESH);
      HavingUpdate(nodes, Syncs, n, FRESH);
      HavingUpdate(nodes, Protects, n, FRESH);
      assert NodeOk(FRESH);
      hide NodeOk, Having;
      nodes := nodes[n := FRESH];
    }

    // The flags that the handlers set: nSyncStarted, nPreferredDownload and the number of
    // protected peers follow them.
    method SetFlags(n: NodeId, sync: bool, preferred: bool, protect: bool)
      requires Valid() && n in nodes
      modifies this
      ensures Valid() && inFlight == old(inFlight)
      ensures nodes == old(nodes)[n := old(nodes)[n].(fSyncStarted := sync, fPreferred := preferred, fProtect := protect)]
    {
      var node := nodes[n].(fSyncStarted := sync, fPreferred := preferred, fProtect := protect);
      CountUpdate(n, node);
      FlagsKeep(nodes, inFlight, n, node);
      hide NodesOk, LinksOk, Having;
      nSyncStarted := nSyncStarted - One(nodes[n].fSyncStarted) + One(sync);
      nPreferredDownload := nPreferredDownload - One(nodes[n].fPreferred) + One(preferred);
      nProtected := nProtected - One(nodes[n].fProtect) + One(protect);
      nodes := nodes[n := node];
    }

    // All the asserts of FinalizeNode hold.
    method FinalizeNode(n: NodeId)
      requires Valid() && n in nodes
      modifies this
      ensures Valid() && nodes == old(nodes) - {n}
      ensures forall h :: h in inFlight <==> h in old(inFlight) && old(inFlight)[h] != n
    {
      hide NodeOk, Having, Listed, LinksOk;
      var node := nodes[n];
      inFlight := EraseAll(inFlight, node.queue);
      RemoveKeeps(nodes, old(inFlight), inFlight, n);
      HavingRemove(nodes, Downloads, n);
      HavingRemove(nodes, Prefers, n);
      HavingRemove(nodes, Syncs, n);
      HavingRemove(nodes, Protects, n);
      assert node.nValid >= 0 by { NonNegative(node); }
      nSyncStarted := nSyncStarted - One(node.fSyncStarted);
      nPreferredDownload := nPreferredDownload - One(node.fPreferred);
      nPeersWithValidatedDownloads := nPeersWithValidatedDownloads - One(node.nValid != 0);
      assert nPeersWithValidatedDownloads >= 0;
      nProtected := nProtected - One(node.fProtect);
      assert nProtected >= 0;
      nodes := nodes - {n};
      if nodes == map[] {
        NothingLeft(nodes, inFlight);
        assert inFlight == map[];
        assert nPreferredDownload == 0 && nPeersWithValidatedDownloads == 0 && nProtected == 0;
      }
    }
  }

  lemma {:induction false} NonNegative(node: Node)
    requires NodeOk(node)
    ensures node.nValid >= 0
  {
  }

  lemma {:induction false} NothingLeft(nodes: map<NodeId, Node>, inFlight: map<Hash, NodeId>)
    requires LinksOk(nodes, inFlight) && nodes == map[]
    ensures inFlight == map[]
    ensures forall p :: |Having(nodes, p)| == 0
  {
    assert forall h :: h !in inFlight;
    forall p
      ensures |Having(nodes, p)| == 0
    {
      assert Having(nodes, p) == {};
    }
  }

  method Find(queue: seq<Queued>, h: Hash) returns (i: nat)
    requires Listed(queue, h)
    ensures i < |queue| && queue[i].hash == h
  {
    i := 0;
    while queue[i].hash != h
      invariant i < |queue| && forall j :: 0 <= j < i ==> queue[j].hash != h
      decreases |queue| - i
    {
      i := i + 1;
    }
  }

  method EraseAll(inFlight: map<Hash, NodeId>, queue: seq<Queued>) returns (rest: map<Hash, NodeId>)
    ensures forall h :: h in rest <==> h in inFlight && !Listed(queue, h)
    ensures forall h :: h in rest ==> rest[h] == inFlight[h]
  {
    rest := inFlight;
    var i := 0;
    while i < |queue|
      invariant 0 <= i <= |queue|
      invariant forall h :: h in rest <==> h in inFlight && !Listed(queue[..i], h)
      invariant forall h :: h in rest ==> rest[h] == inFlight[h]
    {
      ghost var before := rest;
      rest := rest - {queue[i].hash};
      ListedNext(queue, i);
      i := i + 1;
    }
    assert queue[..i] == queue;
  }

  lemma {:induction false} ListedNext(queue: seq<Queued>, i: nat)
    requires i < |queue|
    ensures forall h :: Listed(queue[..i + 1], h) <==> Listed(queue[..i], h) || queue[i].hash == h
  {
    var a, b := queue[..i], queue[..i + 1];
    forall h
      ensures Listed(b, h) <==> Listed(a, h) || queue[i].hash == h
    {
      if Listed(a, h) {
        var j :| 0 <= j < |a| && a[j].hash == h;
        assert b[j].hash == h;
      }
      if queue[i].hash == h {
        assert b[i].hash == h;
      }
    }
  }

  lemma {:induction false} RemoveKeeps(nodes: map<NodeId, Node>, inFlight: map<Hash, NodeId>, rest: map<Hash, NodeId>, n: NodeId)
    requires NodesOk(nodes) && LinksOk(nodes, inFlight) && n in nodes
    requires forall h :: h in rest <==> h in inFlight && !Listed(nodes[n].queue, h)
    requires forall h :: h in rest ==> rest[h] == inFlight[h]
    ensures NodesOk(nodes - {n}) && LinksOk(nodes - {n}, rest)
    ensures forall h :: h in rest <==> h in inFlight && inFlight[h] != n
  {
    hide NodeOk;
    forall h | h in inFlight
      ensures Listed(nodes[n].queue, h) <==> inFlight[h] == n
    {
      if Listed(nodes[n].queue, h) {
        var i :| 0 <= i < |nodes[n].queue| && nodes[n].queue[i].hash == h;
      }
    }
    var nodes' := nodes - {n};
    forall m, k | m in nodes' && 0 <= k < |nodes'[m].queue|
      ensures nodes'[m].queue[k].hash in rest && rest[nodes'[m].queue[k].hash] == m
    {
      assert nodes[m].queue[k].hash in inFlight && inFlight[nodes[m].queue[k].hash] == m;
    }
  }
}
