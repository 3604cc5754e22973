/**
 * The SQL store runs the searches of the memory store over rows that come back in any order and may name another
 * event; its answers are the same up to those two things.
 */
module RowOrder {
  import opened EventMapping
  import opened GraphModel
  import opened GraphOps
  import opened NeighborhoodSearch
  import opened PathSearch
  import opened Projection
  import opened Reach
  import opened Sorting
  import opened SqlStore

  ghost predicate HasTwin(e: Edge, b: seq<Edge>) {
    exists f :: f in b && UpToEvent(e, f)
  }

  /** The same edges up to order and event. */
  ghost predicate SameRows(a: seq<Edge>, b: seq<Edge>) {
    (forall e :: e in a ==> HasTwin(e, b)) && (forall e :: e in b ==> HasTwin(e, a))
  }

  lemma {:induction false} TwinWalk(nodes: map<string, Node>, a: seq<Edge>, b: seq<Edge>, src: string, dst: string,
      ids: seq<string>, es: seq<Edge>) returns (twins: seq<Edge>)
    requires WalkBetween(nodes, a, src, dst, ids, es) && forall e :: e in a ==> HasTwin(e, b)
    ensures WalkBetween(nodes, b, src, dst, ids, twins) && |twins| == |es|
    decreases |es|
  {
    if es == [] {
      twins := [];
    } else {
      var k := |es| - 1;
      var init := TwinWalk(nodes, a, b, src, ids[k], ids[..k + 1], es[..k]);
      assert es[k] in a;
      var f :| f in b && UpToEvent(es[k], f);
      twins := init + [f];
      assert Other(f, ids[k]) == Other(es[k], ids[k]);
    }
  }

  lemma SameWithin(nodes: map<string, Node>, a: seq<Edge>, b: seq<Edge>, src: string, dst: string, k: nat)
    requires SameRows(a, b)
    ensures Within(nodes, a, src, dst, k) <==> Within(nodes, b, src, dst, k)
  {
    if Within(nodes, a, src, dst, k) {
      var ids, es :| WalkBetween(nodes, a, src, dst, ids, es) && |es| <= k;
      var twins := TwinWalk(nodes, a, b, src, dst, ids, es);
    }
    if Within(nodes, b, src, dst, k) {
      var ids, es :| WalkBetween(nodes, b, src, dst, ids, es) && |es| <= k;
      var twins := TwinWalk(nodes, b, a, src, dst, ids, es);
    }
  }

  lemma PathNoLonger(nodes: map<string, Node>, a: seq<Edge>, b: seq<Edge>, src: string, dst: string, maxHops: nat)
    requires SameRows(a, b)
    ensures var p, q := FindPath(nodes, a, src, dst, maxHops), FindPath(nodes, b, src, dst, maxHops);
            p.Some? ==> q.Some? && |q.value.edges| <= |p.value.edges|
  {
    PathFoundIff(nodes, a, src, dst, maxHops);
    PathFoundIff(nodes, b, src, dst, maxHops);
    SameWithin(nodes, a, b, src, dst, Clamp(maxHops, 1, 6));
    var p := FindPath(nodes, a, src, dst, maxHops);
    if p.Some? {
      var ids := PathIsShortest(nodes, a, src, dst, maxHops);
      var others := PathIsShortest(nodes, b, src, dst, maxHops);
      var twins := TwinWalk(nodes, a, b, src, dst, ids, p.value.edges);
    }
  }

  /** On such rows a path is found in both or in neither, and the paths are equally long. */
  lemma PathLengthsAgree(nodes: map<string, Node>, a: seq<Edge>, b: seq<Edge>, src: string, dst: string, maxHops: nat)
    requires SameRows(a, b)
    ensures var p, q := FindPath(nodes, a, src, dst, maxHops), FindPath(nodes, b, src, dst, maxHops);
            (p.Some? <==> q.Some?) && (p.Some? ==> |p.value.edges| == |q.value.edges|)
  {
    PathNoLonger(nodes, a, b, src, dst, maxHops);
    PathNoLonger(nodes, b, a, src, dst, maxHops);
  }

  /** `x` is an end of the edge from which the search follows it. */
  ghost predicate Followed(nodes: map<string, Node>, edges: seq<Edge>, root: string, hops: nat, e: Edge, x: string) {
    Touches(nodes, e, x) && Within(nodes, edges, root, x, Clamp(hops, 1, 6) - 1)
  }

  lemma ReturnedIff(nodes: map<string, Node>, edges: seq<Edge>, root: string, hops: nat, e: Edge)
    requires KeyedById(nodes) && UniqueEdgeIds(edges) && root in nodes
    ensures e in FindNeighborhood(nodes, edges, root, hops).value.edges <==> e in edges && exists x ::
        Followed(nodes, edges, root, hops, e, x)
  {
    NeighborhoodNodes(nodes, edges, root, hops);
    NeighborhoodEdges(nodes, edges, root, hops);
    var h := Clamp(hops, 1, 6);
    if x :| Touches(nodes, e, x) && Within(nodes, edges, root, x, h - 1) {
      assert Followed(nodes, edges, root, hops, e, x);
    }
  }

  lemma EdgesHaveTwins(nodes: map<string, Node>, a: seq<Edge>, b: seq<Edge>, root: string, hops: nat, e: Edge)
    requires SameRows(a, b) && KeyedById(nodes) && UniqueEdgeIds(a) && UniqueEdgeIds(b) && root in nodes
    requires e in FindNeighborhood(nodes, a, root, hops).value.edges
    ensures HasTwin(e, FindNeighborhood(nodes, b, root, hops).value.edges)
  {
    ReturnedIff(nodes, a, root, hops, e);
    var f :| f in b && UpToEvent(e, f);
    var x :| Followed(nodes, a, root, hops, e, x);
    SameWithin(nodes, a, b, root, x, Clamp(hops, 1, 6) - 1);
    assert Followed(nodes, b, root, hops, f, x);
    ReturnedIff(nodes, b, root, hops, f);
  }

  /** On such rows both return the same nodes around a root, and the same edges up to the event. */
  lemma NeighborhoodsAgree(nodes: map<string, Node>, a: seq<Edge>, b: seq<Edge>, root: string, hops: nat)
    requires SameRows(a, b) && KeyedById(nodes) && UniqueEdgeIds(a) && UniqueEdgeIds(b) && root in nodes
    ensures var p, q := FindNeighborhood(nodes, a, root, hops).value, FindNeighborhood(nodes, b, root, hops).value;
            (forall n :: n in p.nodes <==> n in q.nodes) && SameRows(p.edges, q.edges)
  {
    var p, q := FindNeighborhood(nodes, a, root, hops).value, FindNeighborhood(nodes, b, root, hops).value;
    NeighborhoodNodes(nodes, a, root, hops);
    NeighborhoodNodes(nodes, b, root, hops);
    forall n ensures n in p.nodes <==> n in q.nodes {
      SameWithin(nodes, a, b, root, n.nodeId, Clamp(hops, 1, 6));
    }
    forall e | e in p.edges ensures HasTwin(e, q.edges) {
      EdgesHaveTwins(nodes, a, b, root, hops, e);
    }
    forall e | e in q.edges ensures HasTwin(e, p.edges) {
      EdgesHaveTwins(nodes, b, a, root, hops, e);
    }
  }

  // --- After a run ------------------------------------------------------------------

  /** The rows of a tenant, in whatever order the table gives them. */
  ghost predicate Loads(rows: seq<Edge>, table: Rows, tenant: string) {
    forall e :: e in rows <==> exists k :: k in table && k.0 == tenant && table[k] == e
  }

  function LiveRows(rows: seq<Edge>, ctx: QueryContext, now: int): seq<Edge> {
    Filter(Filter(rows, VisibleTo(ctx)), ActiveAt(now))
  }

  lemma LiveMembers(es: seq<Edge>, ctx: QueryContext, now: int)
    ensures forall e :: e in LiveRows(es, ctx, now) <==> e in es && VisibleEdge(ctx, e) && ActiveEdge(e, now)
  {
    FilterMembers(es, VisibleTo(ctx));
    FilterMembers(Filter(es, VisibleTo(ctx)), ActiveAt(now));
  }

  lemma LiveSameRows(a: seq<Edge>, b: seq<Edge>, ctx: QueryContext, now: int)
    requires SameRows(a, b)
    ensures SameRows(LiveRows(a, ctx, now), LiveRows(b, ctx, now))
  {
    LiveMembers(a, ctx, now);
    LiveMembers(b, ctx, now);
    forall e | e in LiveRows(a, ctx, now) ensures HasTwin(e, LiveRows(b, ctx, now)) {
      var f :| f in b && UpToEvent(e, f);
      assert VisibleEdge(ctx, f) && ActiveEdge(f, now);
    }
    forall e | e in LiveRows(b, ctx, now) ensures HasTwin(e, LiveRows(a, ctx, now)) {
      var f :| f in a && UpToEvent(e, f);
      assert VisibleEdge(ctx, f) && ActiveEdge(f, now);
    }
  }

  lemma LoadedTwins(es: seq<Edge>, rows: seq<Edge>, tenant: string)
    requires SameEdges(es) && Loads(rows, PutRows(map[], es), tenant)
    ensures SameRows(ListFor(PutEdges(map[], es), tenant), rows)
  {
    var list, table := ListFor(PutEdges(map[], es), tenant), PutRows(map[], es);
    forall e | e in list ensures HasTwin(e, rows) {
      assert Matched(es, (tenant, e.edgeId), e);
      assert table[(tenant, e.edgeId)] in rows;
    }
    forall e | e in rows ensures HasTwin(e, list) {
      var k :| k in table && k.0 == tenant && table[k] == e;
      var f :| Matched(es, k, f);
    }
  }

  lemma LoadedUnique(es: seq<Edge>, rows: seq<Edge>, tenant: string)
    requires Loads(rows, PutRows(map[], es), tenant)
    ensures UniqueEdgeIds(rows)
  {
    var table := PutRows(map[], es);
    RowsAre(es);
    FirstsAndLasts(es);
    forall k | k in table ensures KeyOf(table[k]) == k {
      assert KeyOf(Lasts(es)[k]) == k;
    }
  }

  lemma ListUnique(es: seq<Edge>, tenant: string)
    ensures UniqueEdgeIds(ListFor(PutEdges(map[], es), tenant))
  {
    var list := ListFor(PutEdges(map[], es), tenant);
    ListsAre(es);
    forall a, b | a in list && b in list && a.edgeId == b.edgeId ensures a == b {
      assert LastWrite(es, tenant, a) && LastWrite(es, tenant, b);
    }
  }

  /**
   * After the same run, as long as no two writes took one edge id on different courses, the searches of the SQL store
   * see the edges of the store in memory, so that paths and neighbourhoods agree.
   */
  lemma RunsSeeSameEdges(rules: Rules, inputs: seq<Input>, ctx: QueryContext, rows: seq<Edge>, now: int)
    requires forall k :: KeptCourse(Written(rules, inputs), k)
    requires Loads(rows, Table(rules, inputs), ctx.tenantId)
    ensures var v := ViewOf(Run(rules, EmptySystem, inputs).graph, ctx);
            SameRows(LiveEdges(v, now), LiveRows(rows, ctx, now)) && KeyedById(v.nodes) &&
            UniqueEdgeIds(LiveEdges(v, now)) && UniqueEdgeIds(LiveRows(rows, ctx, now))
  {
    var es := Written(rules, inputs);
    RunWrites(rules, inputs);
    RunKeepsInvariants(rules, inputs);
    SameEdgesIff(es);
    LoadedTwins(es, rows, ctx.tenantId);
    LoadedUnique(es, rows, ctx.tenantId);
    ListUnique(es, ctx.tenantId);
    var list := ListFor(PutEdges(map[], es), ctx.tenantId);
    LiveSameRows(list, rows, ctx, now);
    LiveMembers(list, ctx, now);
    LiveMembers(rows, ctx, now);
  }
}
