/** Sorted, truncated listings of what a caller sees. */
module Listing {
  import opened GraphModel
  import opened Sorting
  import Text

  function ById(): (Node, Node) -> bool {
    (a: Node, b: Node) => Text.Le(a.nodeId, b.nodeId)
  }

  function ByEdgeId(): (Edge, Edge) -> bool {
    (a: Edge, b: Edge) => Text.Le(a.edgeId, b.edgeId)
  }

  function TypeRank(t: string): nat {
    match t
    case "Person" => 0
    case "Repo" => 1
    case "PullRequest" => 2
    case "Issue" => 3
    case "Ticket" => 3
    case "Intent" => 4
    case "Team" => 5
    case "Channel" => 5
    case "Commit" => 9
    case _ => 6
  }

  function ByRank(): (Node, Node) -> bool {
    (a: Node, b: Node) =>
      TypeRank(a.nodeType) < TypeRank(b.nodeType) ||
      (TypeRank(a.nodeType) == TypeRank(b.nodeType) && Text.Le(a.nodeId, b.nodeId))
  }

  function EdgeRank(t: string): nat {
    match t
    case "BLOCKS" => 0
    case "BLOCKED_BY" => 0
    case "CLAIMS" => 1
    case "ABOUT" => 1
    case "AUTHORED" => 2
    case "ASSIGNED_TO" => 2
    case "BELONGS_TO" => 3
    case "MEMBER_OF" => 3
    case "CHECKED" => 4
    case "PUSHED_TO" => 8
    case _ => 5
  }

  /** Story edges first, newest first within a rank. */
  function ByStory(): (Edge, Edge) -> bool {
    (a: Edge, b: Edge) =>
      EdgeRank(a.edgeType) < EdgeRank(b.edgeType) ||
      (EdgeRank(a.edgeType) == EdgeRank(b.edgeType) && a.validFrom >= b.validFrom)
  }

  function OfType(t: string): Edge -> bool {
    (e: Edge) => Text.EqIgnoreCase(e.edgeType, t)
  }

  function BlocksNode(id: string): Edge -> bool {
    (e: Edge) => (e.edgeType == "BLOCKS" || e.edgeType == "BLOCKED_BY") && (e.fromId == id || e.toId == id)
  }

  function Joins(ids: set<string>): Edge -> bool {
    (e: Edge) => e.fromId in ids && e.toId in ids
  }

  lemma IdOrders()
    ensures Preorder(ById()) && Preorder(ByEdgeId()) && Preorder(ByRank())
  {
    forall a: string, b: string ensures Text.Le(a, b) || Text.Le(b, a) {
      Text.LeTotal(a, b);
    }
    forall a: string, b: string, c: string | Text.Le(a, b) && Text.Le(b, c) ensures Text.Le(a, c) {
      Text.LeTransitive(a, b, c);
    }
  }

  ghost predicate DistinctIds(ns: set<Node>) {
    forall a, b :: a in ns && b in ns && a.nodeId == b.nodeId ==> a == b
  }

  /** Whichever order the nodes are visited in, sorting them gives one answer. */
  lemma VisitOrderIrrelevant(ns: set<Node>, visited: seq<Node>, le: (Node, Node) -> bool)
    requires DistinctIds(ns) && multiset(visited) == multiset(ns)
    requires le == ById() || le == ByRank()
    ensures Sort(visited, le) == Sort(Enumerate(ns), le)
  {
    IdOrders();
    forall a, b | a in visited && b in visited && le(a, b) && le(b, a) ensures a == b {
      Text.LeTotal(a.nodeId, b.nodeId);
      assert a in multiset(visited) && b in multiset(visited);
    }
    SortOfPermutation(visited, Enumerate(ns), le);
  }

  ghost function NodesOfType(v: View, t: string): set<Node> {
    set k | k in v.nodes && Text.EqIgnoreCase(v.nodes[k].nodeType, t) :: v.nodes[k]
  }

  ghost function AllNodes(v: View): set<Node> {
    set k | k in v.nodes :: v.nodes[k]
  }

  ghost function ListedNodes(v: View, t: string, limit: nat): seq<Node> {
    Take(Sort(Enumerate(NodesOfType(v, t)), ById()), Clamp(limit, 1, 500))
  }

  function ListedEdges(v: View, t: string, limit: nat, now: int): seq<Edge> {
    Take(Sort(Filter(LiveEdges(v, now), OfType(t)), ByEdgeId()), Clamp(limit, 1, 500))
  }

  function BlockingEdges(v: View, id: string, now: int): seq<Edge> {
    Filter(LiveEdges(v, now), BlocksNode(id))
  }

  ghost function SnapshotNodes(v: View, limit: nat): seq<Node> {
    Take(Sort(Enumerate(AllNodes(v)), ByRank()), Clamp(limit, 1, 2000))
  }

  function NodeIds(ns: seq<Node>): set<string> {
    set i | 0 <= i < |ns| :: ns[i].nodeId
  }

  function SnapshotEdges(v: View, ns: seq<Node>, nodeLimit: nat, edgeLimit: nat, now: int): seq<Edge> {
    Take(Sort(SnapshotScope(v, ns, nodeLimit, now), ByStory()), Clamp(edgeLimit, 1, 4000))
  }

  /** A full node list keeps the edges inside it, a shorter one keeps them all. */
  function SnapshotScope(v: View, ns: seq<Node>, nodeLimit: nat, now: int): seq<Edge> {
    var live := LiveEdges(v, now);
    if |ns| == Clamp(nodeLimit, 1, 2000) then Filter(live, Joins(NodeIds(ns))) else live
  }

  // --- What the listings promise -----------------------------------------------

  /** The first `limit` visible nodes of the type in id order, and no others. */
  lemma ListedNodesExact(v: View, t: string, limit: nat)
    ensures FirstOf(ListedNodes(v, t, limit), multiset(NodesOfType(v, t)), ById(), Clamp(limit, 1, 500))
  {
    IdOrders();
    TakeOfSort(Enumerate(NodesOfType(v, t)), ById(), Clamp(limit, 1, 500));
  }

  lemma LeftOutComesLater<T(!new)>(r: seq<T>, all: set<T>, le: (T, T) -> bool, limit: nat)
    requires FirstOf(r, multiset(all), le, limit)
    ensures forall x, y :: x in all && x !in r && y in r ==> le(y, x)
  {
    forall x, y | x in all && x !in r && y in r ensures le(y, x) {
      assert x in multiset(all) - multiset(r);
    }
  }

  lemma ListedEdgesExact(v: View, t: string, limit: nat, now: int)
    ensures FirstOf(ListedEdges(v, t, limit, now), multiset(Filter(LiveEdges(v, now), OfType(t))), ByEdgeId(),
        Clamp(limit, 1, 500))
  {
    IdOrders();
    TakeOfSort(Filter(LiveEdges(v, now), OfType(t)), ByEdgeId(), Clamp(limit, 1, 500));
  }

  /**
   * A snapshot holds the first visible nodes by rank and, of the live visible edges, the first story edges. When the
   * node list was cut at the limit the snapshot is closed: every edge joins two nodes of the list.
   */
  lemma SnapshotExact(v: View, nodeLimit: nat, edgeLimit: nat, now: int)
    ensures var ns := SnapshotNodes(v, nodeLimit);
            var es := SnapshotEdges(v, ns, nodeLimit, edgeLimit, now);
            FirstOf(ns, multiset(AllNodes(v)), ByRank(), Clamp(nodeLimit, 1, 2000)) &&
            FirstOf(es, multiset(SnapshotScope(v, ns, nodeLimit, now)), ByStory(), Clamp(edgeLimit, 1, 4000)) &&
            (forall e :: e in es ==> e in LiveEdges(v, now)) &&
            (|ns| == Clamp(nodeLimit, 1, 2000) ==> forall e :: e in es ==>
                e.fromId in NodeIds(ns) && e.toId in NodeIds(ns))
  {
    IdOrders();
    TakeOfSort(Enumerate(AllNodes(v)), ByRank(), Clamp(nodeLimit, 1, 2000));
    var ns := SnapshotNodes(v, nodeLimit);
    var kept := SnapshotScope(v, ns, nodeLimit, now);
    TakeOfSort(kept, ByStory(), Clamp(edgeLimit, 1, 4000));
    var es := SnapshotEdges(v, ns, nodeLimit, edgeLimit, now);
    forall e | e in es ensures e in kept {
      assert e in multiset(es) && e in multiset(kept);
    }
    FilterMembers(LiveEdges(v, now), Joins(NodeIds(ns)));
  }

  // --- What comes first ---------------------------------------------------------------

  /** The place of a type among the tiers; types in none of them come after the first `named`. */
  ghost predicate InTier(tiers: seq<set<string>>, named: nat, t: string, k: nat) {
    if exists i :: 0 <= i < |tiers| && t in tiers[i] then k < |tiers| && t in tiers[k] else k == named
  }

  /** People and their work first, commits last; the seventh tier is every other type. */
  const NodeTiers: seq<set<string>> :=
    [{"Person"}, {"Repo"}, {"PullRequest"}, {"Issue", "Ticket"}, {"Intent"}, {"Team", "Channel"}, {}, {"Commit"}]

  /** The story first, pushes last; the sixth tier is every other type. */
  const EdgeTiers: seq<set<string>> :=
    [{"BLOCKS", "BLOCKED_BY"}, {"CLAIMS", "ABOUT"}, {"AUTHORED", "ASSIGNED_TO"}, {"BELONGS_TO", "MEMBER_OF"},
     {"CHECKED"}, {}, {"PUSHED_TO"}]

  lemma RankOfNode(t: string, k: nat)
    requires InTier(NodeTiers, 6, t, k)
    ensures TypeRank(t) == if k == 7 then 9 else k
  {
    var tiers := NodeTiers;
    assert (exists i :: 0 <= i < |tiers| && t in tiers[i]) <==>
        t in tiers[0] + tiers[1] + tiers[2] + tiers[3] + tiers[4] + tiers[5] + tiers[7];
  }

  lemma RankOfEdge(t: string, k: nat)
    requires InTier(EdgeTiers, 5, t, k)
    ensures EdgeRank(t) == if k == 6 then 8 else k
  {
    var tiers := EdgeTiers;
    assert (exists i :: 0 <= i < |tiers| && t in tiers[i]) <==>
        t in tiers[0] + tiers[1] + tiers[2] + tiers[3] + tiers[4] + tiers[6];
  }

  /** No node left out of a listing has a smaller id than one in it. */
  lemma ListedNodesById(v: View, t: string, limit: nat, x: Node, y: Node)
    requires x in NodesOfType(v, t) && x !in ListedNodes(v, t, limit) && y in ListedNodes(v, t, limit)
    ensures Text.Le(y.nodeId, x.nodeId)
  {
    ListedNodesExact(v, t, limit);
    LeftOutComesLater(ListedNodes(v, t, limit), NodesOfType(v, t), ById(), Clamp(limit, 1, 500));
    assert ById()(y, x);
  }

  lemma ListedEdgesById(v: View, t: string, limit: nat, now: int, x: Edge, y: Edge)
    requires x in Filter(LiveEdges(v, now), OfType(t)) && x !in ListedEdges(v, t, limit, now)
    requires y in ListedEdges(v, t, limit, now)
    ensures Text.Le(y.edgeId, x.edgeId)
  {
    var all, es := Filter(LiveEdges(v, now), OfType(t)), ListedEdges(v, t, limit, now);
    ListedEdgesExact(v, t, limit, now);
    assert x in multiset(all) - multiset(es) by {
      assert x in multiset(all) && x !in multiset(es);
    }
    assert ByEdgeId()(y, x);
  }

  /** No node left out of a snapshot is of an earlier tier than one in it, or of the same tier with a smaller id. */
  lemma SnapshotNodesByTier(v: View, limit: nat, x: Node, y: Node, j: nat, k: nat)
    requires x in AllNodes(v) && x !in SnapshotNodes(v, limit) && y in SnapshotNodes(v, limit)
    requires InTier(NodeTiers, 6, y.nodeType, j) && InTier(NodeTiers, 6, x.nodeType, k)
    ensures j < k || (j == k && Text.Le(y.nodeId, x.nodeId))
  {
    IdOrders();
    TakeOfSort(Enumerate(AllNodes(v)), ByRank(), Clamp(limit, 1, 2000));
    LeftOutComesLater(SnapshotNodes(v, limit), AllNodes(v), ByRank(), Clamp(limit, 1, 2000));
    assert ByRank()(y, x);
    RankOfNode(y.nodeType, j);
    RankOfNode(x.nodeType, k);
  }

  /** No edge left out of a snapshot is of an earlier tier than one in it, or of the same tier and newer. */
  lemma SnapshotEdgesByTier(v: View, ns: seq<Node>, nodeLimit: nat, edgeLimit: nat, now: int, x: Edge, y: Edge, j: nat,
      k: nat)
    requires var es := SnapshotEdges(v, ns, nodeLimit, edgeLimit, now);
             x in SnapshotScope(v, ns, nodeLimit, now) && x !in es && y in es
    requires InTier(EdgeTiers, 5, y.edgeType, j) && InTier(EdgeTiers, 5, x.edgeType, k)
    ensures j < k || (j == k && y.validFrom >= x.validFrom)
  {
    var scope, es := SnapshotScope(v, ns, nodeLimit, now), SnapshotEdges(v, ns, nodeLimit, edgeLimit, now);
    TakeOfSort(scope, ByStory(), Clamp(edgeLimit, 1, 4000));
    assert x in multiset(scope) - multiset(es) by {
      assert x in multiset(scope) && x !in multiset(es);
    }
    assert ByStory()(y, x);
    RankOfEdge(y.edgeType, j);
    RankOfEdge(x.edgeType, k);
  }

  /** An edge the caller may see, in force at this moment. */
  ghost predicate InForce(ctx: QueryContext, e: Edge, now: int) {
    && ctx.tenantId != "" && e.tenantId == ctx.tenantId
    && (e.isPrivate ==> exists g :: g in e.allowedGroups && g in ctx.groupIds)
    && e.validFrom <= now && (e.validTo.None? || now < e.validTo.value)
  }

  /** The blockers of a node are the block edges in force that it is an end of. */
  lemma BlockersExact(g: Graph, ctx: QueryContext, id: string, now: int, e: Edge)
    ensures e in BlockingEdges(ViewOf(g, ctx), id, now) <==>
              e in GraphModel.ListFor(g.edges, ctx.tenantId) && InForce(ctx, e, now) &&
              e.edgeType in {"BLOCKS", "BLOCKED_BY"} && id in {e.fromId, e.toId}
  {
    var v := ViewOf(g, ctx);
    FilterMembers(LiveEdges(v, now), BlocksNode(id));
    FilterMembers(v.edges, ActiveAt(now));
    FilterMembers(GraphModel.ListFor(g.edges, ctx.tenantId), VisibleTo(ctx));
  }
}
