/** What a caller may not see does not influence what the caller gets. */
module NonInterference {
  import opened GraphModel
  import opened GraphOps
  import opened GraphStore
  import opened Sorting
  import Listing
  import NeighborhoodSearch
  import PathSearch

  /** All answers a caller can get from the six graph queries at one instant. */
  datatype Answers = Answers(
    path: Option<PathSearch.GraphPath>,
    neighborhood: Option<NeighborhoodSearch.Neighborhood>,
    blockers: seq<Edge>,
    nodesOfType: seq<Node>,
    edgesOfType: seq<Edge>,
    snapshotNodes: seq<Node>,
    snapshotEdges: seq<Edge>)

  method Ask(store: InMemoryGraphStore, ctx: QueryContext, a: string, b: string, t: string, m: nat, n: nat, now: int)
    returns (r: Answers)
    requires WellFormed(store.Contents())
    ensures var v := ViewOf(store.Contents(), ctx);
            r == AnswersFrom(v, a, b, t, m, n, now)
  {
    var path := store.Path(ctx, a, b, m, now);
    var hood := store.Neighborhood(ctx, a, m, now);
    var blockers := store.Blockers(ctx, a, now);
    var nodes := store.ListNodesByType(ctx, t, m);
    var edges := store.ListEdgesByType(ctx, t, m, now);
    var ns, es := store.Snapshot(ctx, m, n, now);
    return Answers(path, hood, blockers, nodes, edges, ns, es);
  }

  ghost function AnswersFrom(v: View, a: string, b: string, t: string, m: nat, n: nat, now: int): Answers {
    var live := LiveEdges(v, now);
    Answers(
      PathSearch.FindPath(v.nodes, live, a, b, m),
      NeighborhoodSearch.FindNeighborhood(v.nodes, live, a, m),
      Listing.BlockingEdges(v, a, now),
      Listing.ListedNodes(v, t, m),
      Listing.ListedEdges(v, t, m, now),
      Listing.SnapshotNodes(v, m),
      Listing.SnapshotEdges(v, Listing.SnapshotNodes(v, m), m, n, now))
  }

  /** Two stores that agree on what a caller sees answer every query alike, whatever else they hold. */
  method SameAnswers(one: InMemoryGraphStore, two: InMemoryGraphStore, ctx: QueryContext,
                     a: string, b: string, t: string, m: nat, n: nat, now: int)
    returns (first: Answers, second: Answers)
    requires WellFormed(one.Contents()) && WellFormed(two.Contents())
    requires ViewOf(one.Contents(), ctx) == ViewOf(two.Contents(), ctx)
    ensures first == second
  {
    first := Ask(one, ctx, a, b, t, m, n, now);
    second := Ask(two, ctx, a, b, t, m, n, now);
  }

  /** Nothing in the mutation is visible to the caller, nor is anything it overwrites. */
  ghost predicate Unseen(g: Graph, ctx: QueryContext, m: Mutation) {
    && (forall n :: n in m.nodes ==> !VisibleNode(ctx, n))
    && (forall n :: n in m.nodes && NodeKey(n) in g.nodes ==> !VisibleNode(ctx, g.nodes[NodeKey(n)]))
    && (forall e :: e in m.edges ==> !VisibleEdge(ctx, e))
    && (forall e, x :: e in m.edges && x in ListFor(g.edges, e.tenantId) && x.edgeId == e.edgeId ==>
        !VisibleEdge(ctx, x))
  }

  lemma {:induction false} FilterUnseen(s: seq<Edge>, i: nat, e: Edge, p: Edge -> bool)
    requires i < |s| && !p(s[i]) && !p(e)
    ensures Filter(s[i := e], p) == Filter(s, p)
  {
    assert s == s[..i] + ([s[i]] + s[i + 1..]);
    assert s[i := e] == s[..i] + ([e] + s[i + 1..]);
    FilterAppend(s[..i], [s[i]] + s[i + 1..], p);
    FilterAppend(s[..i], [e] + s[i + 1..], p);
    FilterAppend([s[i]], s[i + 1..], p);
    FilterAppend([e], s[i + 1..], p);
  }

  lemma PutUnseenEdge(list: seq<Edge>, e: Edge, ctx: QueryContext)
    requires !VisibleEdge(ctx, e)
    requires forall x :: x in list && x.edgeId == e.edgeId ==> !VisibleEdge(ctx, x)
    ensures Filter(PutEdge(list, e), VisibleTo(ctx)) == Filter(list, VisibleTo(ctx))
  {
    var i := PositionOf(list, e.edgeId);
    if i < |list| {
      FilterUnseen(list, i, e, VisibleTo(ctx));
    } else {
      FilterAppend(list, [e], VisibleTo(ctx));
    }
  }

  lemma {:induction false} PutUnseenEdges(m: map<string, seq<Edge>>, es: seq<Edge>, ctx: QueryContext)
    requires forall e :: e in es ==> !VisibleEdge(ctx, e)
    requires forall e, x :: e in es && x in ListFor(m, e.tenantId) && x.edgeId == e.edgeId ==> !VisibleEdge(ctx, x)
    ensures Filter(ListFor(PutEdges(m, es), ctx.tenantId), VisibleTo(ctx)) == Filter(ListFor(m, ctx.tenantId),
        VisibleTo(ctx))
    decreases |es|
  {
    if es != [] {
      var e := es[0];
      var m' := m[e.tenantId := PutEdge(ListFor(m, e.tenantId), e)];
      PutUnseenEdge(ListFor(m, e.tenantId), e, ctx);
      forall f, x | f in es[1..] && x in ListFor(m', f.tenantId) && x.edgeId == f.edgeId
        ensures !VisibleEdge(ctx, x)
      {
        assert f in es;
        if f.tenantId == e.tenantId && x != e {
          assert x in ListFor(m, e.tenantId);
        }
      }
      PutUnseenEdges(m', es[1..], ctx);
    }
  }

  lemma {:induction false} PutUnseenNodes(m: map<(string, string), Node>, ns: seq<Node>, ctx: QueryContext,
      k: (string, string))
    requires forall n :: n in ns ==> !VisibleNode(ctx, n)
    requires forall n :: n in ns && NodeKey(n) in m ==> !VisibleNode(ctx, m[NodeKey(n)])
    ensures var r := PutNodes(m, ns);
            (k in r && VisibleNode(ctx, r[k]) <==> k in m && VisibleNode(ctx, m[k])) &&
            (k in m && VisibleNode(ctx, m[k]) ==> r[k] == m[k])
    decreases |ns|
  {
    if ns != [] {
      assert ns[0] in ns;
      PutUnseenNodes(m[NodeKey(ns[0]) := ns[0]], ns[1..], ctx, k);
    }
  }

  /** A mutation the caller cannot see leaves the caller's view, and so every answer, as it was. */
  lemma UnseenMutationUnnoticed(g: Graph, ctx: QueryContext, m: Mutation)
    requires Unseen(g, ctx, m)
    ensures ViewOf(Apply(g, m), ctx) == ViewOf(g, ctx)
  {
    PutUnseenEdges(g.edges, m.edges, ctx);
    forall k ensures
      (k in Apply(g, m).nodes && VisibleNode(ctx, Apply(g, m).nodes[k]) <==>
          k in g.nodes && VisibleNode(ctx, g.nodes[k])) &&
      (k in g.nodes && VisibleNode(ctx, g.nodes[k]) ==> Apply(g, m).nodes[k] == g.nodes[k])
    {
      PutUnseenNodes(g.nodes, m.nodes, ctx, k);
    }
    assert ViewOf(Apply(g, m), ctx).nodes == ViewOf(g, ctx).nodes;
  }
}
