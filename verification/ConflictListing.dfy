/** The conflict listing of the graph API: joins a scene from listings and single lookups and reports its conflicts. */
module ConflictListing {
  import opened Conflicts
  import opened GraphModel
  import opened GraphOps
  import opened GraphStore
  import opened Listing
  import opened Sorting
  import opened Signals
  import Text

  predicate IsEnd(edges: seq<Edge>, id: string) {
    exists e :: e in edges && (e.fromId == id || e.toId == id)
  }

  /** The intents, and whatever the caller sees at an end of one of the edges; every node once. */
  ghost predicate Gathered(v: View, intents: seq<Node>, edges: seq<Edge>, nodes: seq<Node>) {
    DistinctNodes(nodes) &&
    forall n :: n in nodes <==> n in intents || (IsEnd(edges, n.nodeId) && Lookup(v.nodes, n.nodeId) == Some(n))
  }

  /** Listed nodes are nodes of the view, each once. */
  lemma ListedAreDistinct(v: View, t: string, limit: nat)
    requires forall id :: id in v.nodes ==> v.nodes[id].nodeId == id
    ensures DistinctNodes(ListedNodes(v, t, limit))
    ensures forall n :: n in ListedNodes(v, t, limit) ==> Lookup(v.nodes, n.nodeId) == Some(n)
  {
    var r := ListedNodes(v, t, limit);
    ListedNodesExact(v, t, limit);
    forall n | n in r ensures n in NodesOfType(v, t) {
      assert n in multiset(r);
    }
    forall i, j | 0 <= i < j < |r| ensures r[i].nodeId != r[j].nodeId {
      assert r[i] in r && r[j] in r;
      OnceInSet(r, NodesOfType(v, t), i, j);
    }
  }

  lemma OnceInSet<T>(s: seq<T>, all: set<T>, i: nat, j: nat)
    requires i < j < |s| && multiset(s) <= multiset(all)
    ensures s[i] != s[j]
  {
    assert s == s[..i] + [s[i]] + s[i + 1..j] + [s[j]] + s[j + 1..];
    assert s[i] == s[j] ==> multiset(s)[s[i]] >= 2;
    assert multiset(s)[s[i]] <= multiset(all)[s[i]] <= 1;
  }

  method HasNode(nodes: seq<Node>, id: string) returns (found: bool)
    ensures found <==> exists n :: n in nodes && n.nodeId == id
  {
    for k := 0 to |nodes|
      invariant forall j :: 0 <= j < k ==> nodes[j].nodeId != id
    {
      if nodes[k].nodeId == id {
        return true;
      }
    }
    return false;
  }

  /** One end of an edge: looked up and added unless the scene has it. */
  method AddEnd(store: InMemoryGraphStore, ctx: QueryContext, nodes: seq<Node>, id: string) returns (more: seq<Node>)
    requires WellFormed(store.Contents()) && DistinctNodes(nodes)
    requires forall n :: n in nodes ==> Lookup(ViewOf(store.Contents(), ctx).nodes, n.nodeId) == Some(n)
    ensures DistinctNodes(more)
    ensures forall n :: n in more <==>
        n in nodes || (n.nodeId == id && Lookup(ViewOf(store.Contents(), ctx).nodes, id) == Some(n))
  {
    more := nodes;
    var found := HasNode(nodes, id);
    if !found {
      var n := store.GetNode(ctx, id);
      if n.Some? {
        store.VisibleIdsDistinct(ctx);
        more := nodes + [n.value];
      }
    }
  }

  lemma MoreEnds(edges: seq<Edge>, k: nat)
    requires k < |edges|
    ensures forall id :: IsEnd(edges[..k + 1], id) <==>
        IsEnd(edges[..k], id) || edges[k].fromId == id || edges[k].toId == id
  {
    forall e ensures e in edges[..k + 1] <==> e in edges[..k] || e == edges[k] {
      assert edges[..k + 1] == edges[..k] + [edges[k]];
    }
    forall id ensures IsEnd(edges[..k + 1], id) <==>
        IsEnd(edges[..k], id) || edges[k].fromId == id || edges[k].toId == id {
      if e :| e in edges[..k] && (e.fromId == id || e.toId == id) {
        assert e in edges[..k + 1];
      }
      if edges[k].fromId == id || edges[k].toId == id {
        assert edges[k] in edges[..k + 1];
      }
    }
  }

  /** The intents, the ends of the edges as far as the caller sees them. */
  method GatherNodes(store: InMemoryGraphStore, ctx: QueryContext, intents: seq<Node>, edges: seq<Edge>)
    returns (nodes: seq<Node>)
    requires WellFormed(store.Contents()) && DistinctNodes(intents)
    requires forall n :: n in intents ==> Lookup(ViewOf(store.Contents(), ctx).nodes, n.nodeId) == Some(n)
    ensures Gathered(ViewOf(store.Contents(), ctx), intents, edges, nodes)
  {
    nodes := intents;
    for k := 0 to |edges|
      invariant Gathered(ViewOf(store.Contents(), ctx), intents, edges[..k], nodes)
    {
      MoreEnds(edges, k);
      var one := AddEnd(store, ctx, nodes, edges[k].fromId);
      nodes := AddEnd(store, ctx, one, edges[k].toId);
    }
    assert edges[..|edges|] == edges;
  }

  /** The instants at which a request reads the clock: for its three edge listings and for the detection. */
  datatype Clock = Clock(blocks: int, about: int, claims: int, detect: int)

  /** What a request looks at. */
  ghost predicate IsScene(v: View, clock: Clock, d: Scene) {
    var blocks, about := ListedEdges(v, "BLOCKS", 300, clock.blocks), ListedEdges(v, "ABOUT", 300, clock.about);
    Gathered(v, ListedNodes(v, "Intent", 300), blocks + about, d.nodes) &&
    d.edges == blocks + about + ListedEdges(v, "CLAIMS", 300, clock.claims) && d.asOf == clock.detect
  }

  function Wanted(includeDemo: bool): Card -> bool {
    (c: Card) => includeDemo || !c.isDemo
  }

  /** The first cards of the exact conflicts of the scene. */
  ghost predicate FirstCards(d: Scene, includeDemo: bool, limit: nat, out: seq<Card>) {
    exists all :: Exact(d, all) && SortedBy(all, BySeverity(d.tenant)) &&
        out == Take(Filter(all, Wanted(includeDemo)), limit)
  }

  /** A request answers with the first conflicts, by severity, of the scene joined from what its caller sees. */
  method ListConflicts(store: InMemoryGraphStore, ctx: QueryContext, clock: Clock, parse: string -> Option<int>,
                       limit: nat, includeDemo: bool) returns (out: seq<Card>, ghost d: Scene)
    requires WellFormed(store.Contents())
    ensures d.tenant == ctx.tenantId && d.parse == parse && IsScene(ViewOf(store.Contents(), ctx), clock, d) &&
        DistinctNodes(d.nodes)
    ensures FirstCards(d, includeDemo, Clamp(limit, 1, 200), out)
  {
    ghost var v := ViewOf(store.Contents(), ctx);
    var intents := store.ListNodesByType(ctx, "Intent", 300);
    var blocks := store.ListEdgesByType(ctx, "BLOCKS", 300, clock.blocks);
    var about := store.ListEdgesByType(ctx, "ABOUT", 300, clock.about);
    var claims := store.ListEdgesByType(ctx, "CLAIMS", 300, clock.claims);
    store.VisibleIdsDistinct(ctx);
    ListedAreDistinct(v, "Intent", 300);
    var nodes := GatherNodes(store, ctx, intents, blocks + about);
    var scene := Scene(ctx.tenantId, nodes, blocks + about + claims, clock.detect, parse);
    d := scene;
    var cards := DetectConflicts(scene);
    out := Take(Filter(cards, Wanted(includeDemo)), Clamp(limit, 1, 200));
  }

  // --- What the listing misses ------------------------------------------------------

  /** Everything the caller sees, as one scene. */
  ghost predicate WholeScene(v: View, at: int, w: Scene) {
    w.edges == v.edges && w.asOf == at && forall n :: n in w.nodes <==> Lookup(v.nodes, n.nodeId) == Some(n)
  }

  /** No listing of the request is cut off. */
  ghost predicate WithinLimits(v: View, at: int) {
    |NodesOfType(v, "Intent")| <= 300 &&
    |Filter(LiveEdges(v, at), OfType("BLOCKS"))| <= 300 && |Filter(LiveEdges(v, at), OfType("ABOUT"))| <= 300
  }

  lemma WholeMultiset<T>(a: multiset<T>, b: multiset<T>)
    requires a <= b && |a| == |b|
    ensures a == b
  {
    assert b == a + (b - a);
    assert |b - a| == 0;
  }

  lemma LiveOfType(v: View, t: string, at: int)
    ensures forall e :: e in Filter(LiveEdges(v, at), OfType(t)) <==>
        e in v.edges && ActiveEdge(e, at) && Text.EqIgnoreCase(e.edgeType, t)
  {
    FilterMembers(LiveEdges(v, at), OfType(t));
    FilterMembers(v.edges, ActiveAt(at));
  }

  lemma SubsetMembers<T(!new)>(r: seq<T>, all: seq<T>)
    requires multiset(r) <= multiset(all)
    ensures forall x :: x in r ==> x in all
    ensures |r| == |all| ==> forall x :: x in r <==> x in all
  {
    assert |multiset(r)| == |r| && |multiset(all)| == |all|;
    forall x | x in r ensures x in all {
      assert x in multiset(r);
    }
    if |r| == |all| {
      WholeMultiset(multiset(r), multiset(all));
      forall x | x in all ensures x in r {
        assert x in multiset(all);
      }
    }
  }

  lemma EdgesListed(v: View, t: string, at: int)
    ensures forall e :: e in ListedEdges(v, t, 300, at) ==> e in v.edges
    ensures |Filter(LiveEdges(v, at), OfType(t))| <= 300 ==>
              forall e :: e in ListedEdges(v, t, 300, at) <==>
                  e in v.edges && ActiveEdge(e, at) && Text.EqIgnoreCase(e.edgeType, t)
  {
    ListedEdgesExact(v, t, 300, at);
    SubsetMembers(ListedEdges(v, t, 300, at), Filter(LiveEdges(v, at), OfType(t)));
    LiveOfType(v, t, at);
  }

  lemma AllIntentsListed(v: View)
    requires (forall id :: id in v.nodes ==> v.nodes[id].nodeId == id) && |NodesOfType(v, "Intent")| <= 300
    ensures forall n :: n in ListedNodes(v, "Intent", 300) <==> Lookup(v.nodes, n.nodeId) == Some(n) && IsIntent(n)
  {
    var r, all := ListedNodes(v, "Intent", 300), NodesOfType(v, "Intent");
    ListedNodesExact(v, "Intent", 300);
    assert |multiset(all)| == |all|;
    WholeMultiset(multiset(r), multiset(all));
    forall n ensures n in r <==> n in all {
      assert n in multiset(r) <==> n in multiset(all);
    }
  }

  /** The node is at an end of a live edge that blocks or is about something. */
  ghost predicate LookedAt(v: View, at: int, id: string) {
    exists e :: e in v.edges && ActiveEdge(e, at) && (e.fromId == id || e.toId == id) &&
      (Text.EqIgnoreCase(e.edgeType, "BLOCKS") || Text.EqIgnoreCase(e.edgeType, "ABOUT"))
  }

  ghost predicate Complete(v: View, at: int, d: Scene, w: Scene) {
    (forall id :: id in v.nodes ==> v.nodes[id].nodeId == id) && WithinLimits(v, at) &&
    IsScene(v, Clock(at, at, at, at), d) && WholeScene(v, at, w) && d.tenant == w.tenant && d.parse == w.parse
  }

  lemma SceneNodes(v: View, at: int, d: Scene, w: Scene)
    requires Complete(v, at, d, w)
    ensures forall n :: n in d.nodes <==> n in w.nodes && (IsIntent(n) || LookedAt(v, at, n.nodeId))
  {
    EdgesListed(v, "BLOCKS", at);
    EdgesListed(v, "ABOUT", at);
    AllIntentsListed(v);
    var ends := ListedEdges(v, "BLOCKS", 300, at) + ListedEdges(v, "ABOUT", 300, at);
    forall id ensures IsEnd(ends, id) <==> LookedAt(v, at, id) {
      if e :| e in v.edges && ActiveEdge(e, at) && (e.fromId == id || e.toId == id) &&
              (Text.EqIgnoreCase(e.edgeType, "BLOCKS") || Text.EqIgnoreCase(e.edgeType, "ABOUT")) {
        assert e in ends;
      }
    }
  }

  lemma SceneEdges(v: View, at: int, d: Scene, w: Scene)
    requires Complete(v, at, d, w)
    ensures forall e :: e in d.edges && IsAbout(d, e) <==> e in w.edges && IsAbout(w, e)
    ensures forall e :: e in d.edges && IsBlock(d, e) <==> e in w.edges && IsBlock(w, e)
  {
    EdgesListed(v, "BLOCKS", at);
    EdgesListed(v, "ABOUT", at);
    EdgesListed(v, "CLAIMS", at);
  }

  lemma SameClaims(v: View, at: int, d: Scene, w: Scene)
    requires Complete(v, at, d, w)
    ensures forall n, work :: Claims(d, n, work) <==> Claims(w, n, work)
  {
    SceneNodes(v, at, d, w);
    SceneEdges(v, at, d, w);
    forall n, work ensures ByEdge(d, d.edges, n, work) <==> ByEdge(w, w.edges, n, work) {
      if e :| e in d.edges && Links(d, e, n, work) {
        assert e in w.edges && Links(w, e, n, work);
      }
      if e :| e in w.edges && Links(w, e, n, work) {
        assert e in d.edges && Links(d, e, n, work);
      }
    }
  }

  ghost predicate Blocks(d: Scene, from: string, to: string) {
    exists k :: BlockAt(d, k, from, to)
  }

  lemma SameBlocks(v: View, at: int, d: Scene, w: Scene, from: string, to: string)
    requires Complete(v, at, d, w)
    ensures Blocks(d, from, to) <==> Blocks(w, from, to)
  {
    SceneEdges(v, at, d, w);
    if k :| BlockAt(d, k, from, to) {
      assert d.edges[k] in w.edges;
      var i :| 0 <= i < |w.edges| && w.edges[i] == d.edges[k];
      assert BlockAt(w, i, from, to);
    }
    if k :| BlockAt(w, k, from, to) {
      assert w.edges[k] in d.edges;
      var i :| 0 <= i < |d.edges| && d.edges[i] == w.edges[k];
      assert BlockAt(d, i, from, to);
    }
  }

  /** A mutual block between two work items, in whichever direction it is named. */
  lemma MutualEitherWay(d: Scene, x: string, y: string)
    requires x != y
    ensures IsConflict(d, Mutual(x, y)) || IsConflict(d, Mutual(y, x)) <==> Blocks(d, x, y) && Blocks(d, y, x)
  {
    if j, k :| BlockAt(d, j, x, y) && BlockAt(d, k, y, x) {
      assert j < k || k < j;
    }
  }

  lemma SameClaimed(d: Scene, w: Scene, work: string)
    requires forall n :: Claims(d, n, work) <==> Claims(w, n, work)
    ensures forall t :: Claimed(d, work, t) <==> Claimed(w, work, t)
    ensures SeveralOwners(d, work) <==> SeveralOwners(w, work)
  {
    forall o ensures OwnedBy(d, work, o) <==> OwnedBy(w, work, o) {
    }
  }

  /** The listing reports a conflict about claims exactly when there is one in everything the caller sees. */
  lemma ClaimsListed(v: View, at: int, d: Scene, w: Scene, id: CardId)
    requires Complete(v, at, d, w) && (id.Owners? || id.ShipFreeze? || id.Blocked?)
    ensures IsConflict(d, id) <==> IsConflict(w, id)
  {
    if id.Blocked? {
      SceneNodes(v, at, d, w);
    } else {
      SameClaims(v, at, d, w);
      SameClaimed(d, w, id.work);
    }
  }

  /** The same for blocks; two items that block each other may be named in the other order. */
  lemma BlocksListed(v: View, at: int, d: Scene, w: Scene, x: string, y: string)
    requires Complete(v, at, d, w)
    ensures IsConflict(d, BlocksShip(x, y)) <==> IsConflict(w, BlocksShip(x, y))
    ensures x != y ==> (IsConflict(d, Mutual(x, y)) || IsConflict(d, Mutual(y, x)) <==>
              IsConflict(w, Mutual(x, y)) || IsConflict(w, Mutual(y, x)))
  {
    SameClaims(v, at, d, w);
    SameClaimed(d, w, y);
    SameBlocks(v, at, d, w, x, y);
    SameBlocks(v, at, d, w, y, x);
    if x != y {
      MutualEitherWay(d, x, y);
      MutualEitherWay(w, x, y);
    }
  }

  /** The request looks at this node. */
  ghost predicate Seen(v: View, at: int, id: string) {
    LookedAt(v, at, id) || (id in v.nodes && IsIntent(v.nodes[id]))
  }

  lemma SeenNodes(v: View, at: int, d: Scene, w: Scene, work: string)
    requires Complete(v, at, d, w)
    ensures forall n :: NodeWith(d, n, work) <==> NodeWith(w, n, work) && Seen(v, at, work)
    ensures forall n :: WorkNode(d, n, work) <==> WorkNode(w, n, work) && Seen(v, at, work)
    ensures Claimed(d, work, "SHIP") <==> Claimed(w, work, "SHIP")
  {
    SameClaims(v, at, d, w);
    SceneNodes(v, at, d, w);
    SameClaimed(d, w, work);
    assert forall n :: NodeWith(d, n, work) <==> NodeWith(w, n, work) && Seen(v, at, work);
  }

  /**
   * Friction of a work item is listed exactly when the item is looked at: work that nothing blocks and no edge is about
   * is left out, whatever its own properties say.
   */
  lemma FrictionListedIff(v: View, at: int, d: Scene, w: Scene, id: CardId)
    requires Complete(v, at, d, w) && (id.Friction? || id.Stale? || id.Ci?)
    ensures IsConflict(d, id) <==> IsConflict(w, id) && Seen(v, at, id.work)
  {
    SeenNodes(v, at, d, w, id.work);
    SameFriction(d, w, id, Seen(v, at, id.work));
  }

  lemma SameFriction(d: Scene, w: Scene, id: CardId, seen: bool)
    requires (id.Friction? || id.Stale? || id.Ci?) && d.asOf == w.asOf && d.parse == w.parse
    requires forall n :: NodeWith(d, n, id.work) <==> NodeWith(w, n, id.work) && seen
    requires forall n :: WorkNode(d, n, id.work) <==> WorkNode(w, n, id.work) && seen
    requires Claimed(d, id.work, "SHIP") <==> Claimed(w, id.work, "SHIP")
    ensures IsConflict(d, id) <==> IsConflict(w, id) && seen
  {
  }
}
