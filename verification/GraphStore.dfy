/** The in-memory graph store: maps updated in place, and the searches that read them. */
module GraphStore {
  import opened GraphModel
  import opened GraphOps
  import opened Listing
  import opened Reach
  import opened Sorting
  import NeighborhoodSearch
  import PathSearch
  import Text

  /** The node belongs to the caller's tenant, and is public or shared with one of the caller's groups. */
  ghost predicate OpenTo(ctx: QueryContext, n: Node) {
    ctx.tenantId != "" && n.tenantId == ctx.tenantId &&
    (n.isPrivate ==> exists g :: g in n.allowedGroups && g in ctx.groupIds)
  }

  /** A state is public or shared with one of the caller's groups. */
  ghost predicate StateOpenTo(ctx: QueryContext, s: EntityState) {
    ctx.tenantId != "" && (s.isPrivate ==> exists g :: g in s.allowedGroups && g in ctx.groupIds)
  }

  class InMemoryGraphStore {
    var applied: set<(string, string)>
    var nodes: map<(string, string), Node>
    var edges: map<string, seq<Edge>>
    var states: map<(string, string, string), EntityState>

    function Contents(): Graph
      reads this
    {
      Graph(applied, nodes, edges, states)
    }

    constructor ()
      ensures Contents() == EmptyGraph
    {
      applied, nodes, edges, states := {}, map[], map[], map[];
    }

    /** Records the event; true only the first time. */
    method MarkEventApplied(tenant: string, eventId: string) returns (first: bool)
      modifies this
      ensures first == ((tenant, eventId) !in old(applied))
      ensures Contents() == Mark(old(Contents()), tenant, eventId)
    {
      if (tenant, eventId) in applied {
        assert applied + {(tenant, eventId)} == applied;
        return false;
      }
      applied := applied + {(tenant, eventId)};
      return true;
    }

    method ApplyMutation(m: Mutation)
      requires WellFormed(Contents())
      modifies this
      ensures Contents() == Apply(old(Contents()), m)
      ensures WellFormed(Contents())
    {
      ApplyKeepsWellFormed(Contents(), m);
      PutAllNodes(m.nodes);
      PutAllEdges(m.edges);
      MergeAllStates(m.states);
    }

    method PutAllNodes(ns: seq<Node>)
      modifies this`nodes
      ensures nodes == PutNodes(old(nodes), ns)
    {
      for i := 0 to |ns|
        invariant PutNodes(nodes, ns[i..]) == PutNodes(old(nodes), ns)
      {
        nodes := nodes[NodeKey(ns[i]) := ns[i]];
      }
    }

    method PutAllEdges(es: seq<Edge>)
      modifies this`edges
      ensures edges == PutEdges(old(edges), es)
    {
      for i := 0 to |es|
        invariant PutEdges(edges, es[i..]) == PutEdges(old(edges), es)
      {
        var e := es[i];
        var list := ListFor(edges, e.tenantId);
        var pos := FindEdge(list, e.edgeId);
        if pos < |list| {
          list := list[pos := e];
        } else {
          list := list + [e];
        }
        edges := edges[e.tenantId := list];
      }
    }

    method MergeAllStates(ss: seq<EntityState>)
      modifies this`states
      ensures states == PutStates(old(states), ss)
    {
      for i := 0 to |ss|
        invariant PutStates(states, ss[i..]) == PutStates(old(states), ss)
      {
        var s := ss[i];
        var key := StateKey(s);
        if key in states && states[key].asOf > s.asOf {
          // an older event: ignored
          assert states == states[key := states[key]];
        } else if key in states && states[key].asOf == s.asOf
               && states[key].eventId != s.eventId && states[key].stateValue != s.stateValue {
          if Priority(s.stateValue) >= Priority(states[key].stateValue) {
            states := states[key := s];
          } else {
            assert states == states[key := states[key]];
          }
        } else {
          states := states[key := s];
        }
      }
    }

    /** Linear search for an edge id. */
    method FindEdge(list: seq<Edge>, id: string) returns (pos: nat)
      ensures pos == PositionOf(list, id)
    {
      pos := 0;
      while pos < |list| && list[pos].edgeId != id
        invariant pos <= |list|
        invariant PositionOf(list, id) == pos + PositionOf(list[pos..], id)
      {
        pos := pos + 1;
      }
    }

    function GetNode(ctx: QueryContext, id: string): (r: Option<Node>)
      reads this
      ensures r == Lookup(ViewOf(Contents(), ctx).nodes, id)
      ensures r.Some? <==> ((ctx.tenantId, id) in nodes && OpenTo(ctx, nodes[(ctx.tenantId, id)]))
      ensures r.Some? ==> r.value == nodes[(ctx.tenantId, id)]
    {
      if (ctx.tenantId, id) in nodes && VisibleNode(ctx, nodes[(ctx.tenantId, id)]) then
        assert (ctx.tenantId, id) in Contents().nodes;
        Some(nodes[(ctx.tenantId, id)])
      else None
    }

    /** A state is returned when its own access list allows it, whether or not its node is visible. */
    method GetState(ctx: QueryContext, nodeId: string, key: string) returns (r: Option<EntityState>)
      ensures r == AllowedState(Contents(), ctx, nodeId, key)
      ensures r.Some? <==>
                (ctx.tenantId, nodeId, key) in states && StateOpenTo(ctx, states[(ctx.tenantId, nodeId, key)])
      ensures r.Some? ==> r.value == states[(ctx.tenantId, nodeId, key)]
    {
      var k := (ctx.tenantId, nodeId, key);
      if GetNode(ctx, nodeId).None? {
        if k in states {
          if !AclAllows(ctx, states[k].isPrivate, states[k].allowedGroups) {
            return None;
          }
        } else {
          return None;
        }
      }
      if k in states && AclAllows(ctx, states[k].isPrivate, states[k].allowedGroups) {
        return Some(states[k]);
      }
      return None;
    }

    /** The traversable edges among `list`. */
    static function Live(list: seq<Edge>, ctx: QueryContext, now: int): seq<Edge> {
      Filter(Filter(list, VisibleTo(ctx)), ActiveAt(now))
    }

    /** Breadth-first search over the undirected view of the visible active edges. */
    method Path(ctx: QueryContext, src: string, dst: string, maxHops: nat, now: int)
      returns (r: Option<PathSearch.GraphPath>)
      ensures var v := ViewOf(Contents(), ctx);
              r == PathSearch.FindPath(v.nodes, LiveEdges(v, now), src, dst, maxHops)
    {
      var hops := Clamp(maxHops, 1, 6);
      if GetNode(ctx, src).None? || GetNode(ctx, dst).None? {
        return None;
      }
      ghost var v := ViewOf(Contents(), ctx);
      ghost var live := LiveEdges(v, now);
      PathSearch.SearchOutcome(v.nodes, live, src, dst, hops);
      var s := PathSearch.Search([src], map[src := 0], map[]);
      ghost var answer := PathSearch.RunSearch(v.nodes, live, dst, hops, s);
      while s.queue != []
        invariant PathSearch.RunSearch(v.nodes, live, dst, hops, s) == answer
        decreases PathSearch.Work(v.nodes, s)
      {
        var cur := s.queue[0];
        var d := PathSearch.HopsTo(s, cur);
        if d < hops {
          var step := Relax(ctx, cur, d, dst, now, s.(queue := s.queue[1..]));
          if step.Found? {
            r := BuildPath(ctx, src, dst, now, step.s);
            return;
          }
          s := step.s;
        } else {
          s := s.(queue := s.queue[1..]);
        }
      }
      return None;
    }

    /** Follows every traversable edge at `cur`, noting nodes not reached before, until `dst` is met. */
    method Relax(ctx: QueryContext, cur: string, d: nat, dst: string, now: int, s: PathSearch.Search)
      returns (r: PathSearch.Scan)
      ensures var v := ViewOf(Contents(), ctx);
              r == PathSearch.ScanEdges(v.nodes, LiveEdges(v, now), cur, d, dst, s)
    {
      var all := ListFor(edges, ctx.tenantId);
      ghost var visible := ViewOf(Contents(), ctx).nodes;
      ghost var goal := PathSearch.ScanEdges(visible, LiveEdges(ViewOf(Contents(), ctx), now), cur, d, dst, s);
      assert all[0..] == all;
      var t := s;
      for i := 0 to |all|
        invariant PathSearch.ScanEdges(visible, Live(all[i..], ctx, now), cur, d, dst, t) == goal
      {
        var e := all[i];
        LiveStep(all, i, ctx, now);
        if VisibleEdge(ctx, e) && ActiveEdge(e, now) {
          var far := Other(e, cur);
          if far.Some? && GetNode(ctx, far.value).Some? && far.value !in t.dist {
            t := t.(dist := t.dist[far.value := d + 1], prev := t.prev[far.value := (cur, e)]);
            if far.value == dst {
              return PathSearch.Found(t);
            }
            t := t.(queue := t.queue + [far.value]);
          }
        }
      }
      assert Live(all[|all|..], ctx, now) == [];
      return PathSearch.Continue(t);
    }

    static lemma LiveStep(all: seq<Edge>, i: nat, ctx: QueryContext, now: int)
      requires i < |all|
      ensures var here, rest := Live(all[i..], ctx, now), Live(all[i + 1..], ctx, now);
              if VisibleEdge(ctx, all[i]) && ActiveEdge(all[i], now)
              then here != [] && here[0] == all[i] && here[1..] == rest
              else here == rest
    {
      var e, vis, act := all[i], VisibleTo(ctx), ActiveAt(now);
      assert all[i..] == [e] + all[i + 1..];
      FilterAppend([e], all[i + 1..], vis);
      FilterAppend(Filter([e], vis), Filter(all[i + 1..], vis), act);
      assert Filter([e], vis) == if vis(e) then [e] else [];
      assert Filter([e], act) == if act(e) then [e] else [];
    }

    /** Walks the predecessors back from `dst`, then turns the ids into nodes. */
    method BuildPath(ctx: QueryContext, src: string, dst: string, now: int, s: PathSearch.Search)
      returns (r: Option<PathSearch.GraphPath>)
      requires var v := ViewOf(Contents(), ctx);
               PathSearch.Tree(v.nodes, LiveEdges(v, now), src, s) && dst in s.dist
      ensures var v := ViewOf(Contents(), ctx);
              r == Some(PathSearch.PathOf(v.nodes, LiveEdges(v, now), src, s, dst))
    {
      ghost var v := ViewOf(Contents(), ctx);
      var ids, path := WalkBack(v.nodes, LiveEdges(v, now), src, dst, s);
      PathSearch.WalkBackIsWalk(v.nodes, LiveEdges(v, now), src, s, dst);
      var out := NodesFor(ctx, ids);
      return Some(PathSearch.GraphPath(out, path));
    }

    method NodesFor(ctx: QueryContext, ids: seq<string>) returns (out: seq<Node>)
      requires forall i :: 0 <= i < |ids| ==> ids[i] in ViewOf(Contents(), ctx).nodes
      ensures out == PathSearch.NodesOf(ViewOf(Contents(), ctx).nodes, ids)
    {
      ghost var visible := ViewOf(Contents(), ctx).nodes;
      out := [];
      for i := 0 to |ids|
        invariant |out| == i && forall j :: 0 <= j < i ==> out[j] == visible[ids[j]]
      {
        assert ids[i] in visible;
        var n := GetNode(ctx, ids[i]);
        if n.Some? {
          out := out + [n.value];
        }
      }
    }

    static method WalkBack(ghost visible: map<string, Node>, ghost live: seq<Edge>, src: string, dst: string,
        s: PathSearch.Search)
      returns (ids: seq<string>, path: seq<Edge>)
      requires PathSearch.Tree(visible, live, src, s) && dst in s.dist
      ensures (ids, path) == PathSearch.WalkBack(visible, live, src, s, dst)
    {
      ids, path := [dst], [];
      var walk := dst;
      ghost var w := PathSearch.WalkBack(visible, live, src, s, dst);
      ghost var whole := w;
      assert w.0 + Reversed(ids)[1..] == w.0 && w.1 + Reversed(path) == w.1;
      while walk != src
        invariant walk in s.dist && ids != [] && Reversed(ids)[0] == walk
        invariant w == PathSearch.WalkBack(visible, live, src, s, walk)
        invariant whole == (w.0 + Reversed(ids)[1..], w.1 + Reversed(path))
        decreases s.dist[walk]
      {
        var (p, e) := s.prev[walk];
        ghost var w' := PathSearch.WalkBack(visible, live, src, s, p);
        assert w'.0 + [walk] + Reversed(ids)[1..] == w'.0 + Reversed(ids);
        assert w'.1 + [e] + Reversed(path) == w'.1 + ([e] + Reversed(path));
        PushReversed(path, e);
        PushReversed(ids, p);
        path := path + [e];
        ids := ids + [p];
        walk, w := p, w';
      }
      assert [src] + Reversed(ids)[1..] == Reversed(ids) && [] + Reversed(path) == Reversed(path);
      ids, path := Reversed(ids), Reversed(path);
    }

    static function Reversed<T>(s: seq<T>): (r: seq<T>)
      ensures |r| == |s|
    {
      seq(|s|, i requires 0 <= i < |s| => s[|s| - 1 - i])
    }

    static lemma PushReversed<T>(s: seq<T>, x: T)
      ensures Reversed(s + [x]) == [x] + Reversed(s)
    {
    }

    /** Layer by layer from the root; `None` stands for the not-found error. */
    method Neighborhood(ctx: QueryContext, root: string, hops: nat, now: int)
      returns (r: Option<NeighborhoodSearch.Neighborhood>)
      ensures var v := ViewOf(Contents(), ctx);
              r == NeighborhoodSearch.FindNeighborhood(v.nodes, LiveEdges(v, now), root, hops)
    {
      var start := GetNode(ctx, root);
      if start.None? {
        return None;
      }
      ghost var visible := ViewOf(Contents(), ctx).nodes;
      ghost var live := LiveEdges(ViewOf(Contents(), ctx), now);
      var h := Clamp(hops, 1, 6);
      var w := NeighborhoodSearch.Visit({root}, [start.value], [], []);
      var frontier := [root];
      ghost var goal := NeighborhoodSearch.Rounds(visible, live, frontier, h, w);
      var k := h;
      while k > 0 && frontier != []
        invariant NeighborhoodSearch.Rounds(visible, live, frontier, k, w) == goal
      {
        w := w.(next := []);
        ghost var swept := NeighborhoodSearch.Sweep(visible, live, frontier, w);
        assert frontier[0..] == frontier;
        for i := 0 to |frontier|
          invariant NeighborhoodSearch.Sweep(visible, live, frontier[i..], w) == swept
        {
          assert frontier[i..][1..] == frontier[i + 1..];
          w := FollowEdges(ctx, frontier[i], now, w);
        }
        frontier, k := w.next, k - 1;
      }
      return Some(NeighborhoodSearch.Neighborhood(start.value, w.nodes, w.edges, h));
    }

    method FollowEdges(ctx: QueryContext, at: string, now: int, start: NeighborhoodSearch.Visit)
      returns (w: NeighborhoodSearch.Visit)
      ensures var v := ViewOf(Contents(), ctx);
              w == NeighborhoodSearch.FollowAll(v.nodes, LiveEdges(v, now), at, start)
    {
      var all := ListFor(edges, ctx.tenantId);
      ghost var visible := ViewOf(Contents(), ctx).nodes;
      ghost var goal := NeighborhoodSearch.FollowAll(visible, LiveEdges(ViewOf(Contents(), ctx), now), at, start);
      assert all[0..] == all;
      w := start;
      for i := 0 to |all|
        invariant NeighborhoodSearch.FollowAll(visible, Live(all[i..], ctx, now), at, w) == goal
      {
        var e := all[i];
        LiveStep(all, i, ctx, now);
        if VisibleEdge(ctx, e) && ActiveEdge(e, now) {
          var far := Other(e, at);
          if far.Some? {
            var n := GetNode(ctx, far.value);
            if n.Some? {
              if !NeighborhoodSearch.HasEdgeId(w.edges, e.edgeId) {
                w := w.(edges := w.edges + [e]);
              }
              if far.value !in w.seen {
                w := w.(seen := w.seen + {far.value}, nodes := w.nodes + [n.value], next := w.next + [far.value]);
              }
            }
          }
        }
      }
      assert Live(all[|all|..], ctx, now) == [];
    }

    /** The visible active edges that satisfy `keep`, in store order. */
    method LiveMatching(ctx: QueryContext, now: int, keep: Edge -> bool) returns (out: seq<Edge>)
      ensures out == Filter(LiveEdges(ViewOf(Contents(), ctx), now), keep)
    {
      var all := ListFor(edges, ctx.tenantId);
      out := [];
      for i := 0 to |all|
        invariant out == Filter(Live(all[..i], ctx, now), keep)
      {
        KeepStep(all[..i], all[i], ctx, now, keep);
        assert all[..i + 1] == all[..i] + [all[i]];
        if VisibleEdge(ctx, all[i]) && ActiveEdge(all[i], now) && keep(all[i]) {
          out := out + [all[i]];
        }
      }
      assert all[..|all|] == all;
    }

    static lemma KeepStep(done: seq<Edge>, e: Edge, ctx: QueryContext, now: int, keep: Edge -> bool)
      ensures Filter(Live(done + [e], ctx, now), keep)
           == if VisibleEdge(ctx, e) && ActiveEdge(e, now) && keep(e)
              then Filter(Live(done, ctx, now), keep) + [e] else Filter(Live(done, ctx, now), keep)
    {
      FilterAppend(done, [e], VisibleTo(ctx));
      FilterAppend(Filter(done, VisibleTo(ctx)), Filter([e], VisibleTo(ctx)), ActiveAt(now));
      FilterAppend(Live(done, ctx, now), Live([e], ctx, now), keep);
      FilterOne(e, VisibleTo(ctx));
      FilterOne(e, ActiveAt(now));
      FilterOne(e, keep);
    }

    static lemma FilterOne(e: Edge, p: Edge -> bool)
      ensures Filter([e], p) == if p(e) then [e] else []
    {
    }

    method Blockers(ctx: QueryContext, id: string, now: int) returns (out: seq<Edge>)
      ensures out == BlockingEdges(ViewOf(Contents(), ctx), id, now)
    {
      out := LiveMatching(ctx, now, BlocksNode(id));
    }

    method ListEdgesByType(ctx: QueryContext, edgeType: string, limit: nat, now: int) returns (out: seq<Edge>)
      ensures out == ListedEdges(ViewOf(Contents(), ctx), edgeType, limit, now)
    {
      var found := LiveMatching(ctx, now, OfType(edgeType));
      out := Take(Sort(found, ByEdgeId()), Clamp(limit, 1, 500));
    }

    /** Visits the stored nodes in an arbitrary order and keeps the visible ones that satisfy `keep`. */
    method Collect(ctx: QueryContext, keep: Node -> bool) returns (out: seq<Node>)
      requires WellFormed(Contents())
      ensures var v := ViewOf(Contents(), ctx);
              multiset(out) == multiset(set k | k in v.nodes && keep(v.nodes[k]) :: v.nodes[k])
    {
      out := [];
      ghost var found: set<Node> := {};
      var todo := nodes.Keys;
      while todo != {}
        invariant todo <= nodes.Keys && multiset(out) == multiset(found)
        invariant forall n :: n in found <==> Stored(n) && NodeKey(n) !in todo && VisibleNode(ctx, n) && keep(n)
        decreases todo
      {
        var k :| k in todo;
        var n := nodes[k];
        assert Stored(n) && NodeKey(n) == k;
        todo := todo - {k};
        if k.0 == ctx.tenantId && keep(n) && VisibleNode(ctx, n) {
          assert n !in found;
          out := out + [n];
          found := found + {n};
        }
      }
      FoundAll(ctx, keep, found);
    }

    ghost predicate Stored(n: Node)
      reads this
    {
      NodeKey(n) in nodes && nodes[NodeKey(n)] == n
    }

    lemma FoundAll(ctx: QueryContext, keep: Node -> bool, found: set<Node>)
      requires WellFormed(Contents())
      requires forall n :: n in found <==> Stored(n) && VisibleNode(ctx, n) && keep(n)
      ensures var v := ViewOf(Contents(), ctx);
              found == set k | k in v.nodes && keep(v.nodes[k]) :: v.nodes[k]
    {
      var v := ViewOf(Contents(), ctx);
      forall n | n in found ensures n.nodeId in v.nodes && v.nodes[n.nodeId] == n {
        assert NodeKey(n) in Contents().nodes;
      }
      forall k | k in v.nodes && keep(v.nodes[k]) ensures v.nodes[k] in found {
        assert (ctx.tenantId, k) in Contents().nodes;
      }
    }

    lemma VisibleIdsDistinct(ctx: QueryContext)
      requires WellFormed(Contents())
      ensures var v := ViewOf(Contents(), ctx);
              DistinctIds(AllNodes(v)) && (forall t :: NodesOfType(v, t) <= AllNodes(v)) &&
                  NeighborhoodSearch.KeyedById(v.nodes)
    {
    }

    method ListNodesByType(ctx: QueryContext, nodeType: string, limit: nat) returns (out: seq<Node>)
      requires WellFormed(Contents())
      ensures out == ListedNodes(ViewOf(Contents(), ctx), nodeType, limit)
    {
      var found := Collect(ctx, (n: Node) => Text.EqIgnoreCase(n.nodeType, nodeType));
      VisibleIdsDistinct(ctx);
      VisitOrderIrrelevant(NodesOfType(ViewOf(Contents(), ctx), nodeType), found, ById());
      out := Take(Sort(found, ById()), Clamp(limit, 1, 500));
    }

    method Snapshot(ctx: QueryContext, nodeLimit: nat, edgeLimit: nat, now: int) returns (ns: seq<Node>, es: seq<Edge>)
      requires WellFormed(Contents())
      ensures ns == SnapshotNodes(ViewOf(Contents(), ctx), nodeLimit)
      ensures es == SnapshotEdges(ViewOf(Contents(), ctx), ns, nodeLimit, edgeLimit, now)
    {
      var found := Collect(ctx, (n: Node) => true);
      VisibleIdsDistinct(ctx);
      VisitOrderIrrelevant(AllNodes(ViewOf(Contents(), ctx)), found, ByRank());
      ns := Take(Sort(found, ByRank()), Clamp(nodeLimit, 1, 2000));
      if |ns| == Clamp(nodeLimit, 1, 2000) {
        es := LiveMatching(ctx, now, Joins(NodeIds(ns)));
      } else {
        es := LiveMatching(ctx, now, (e: Edge) => true);
        KeepAll(LiveEdges(ViewOf(Contents(), ctx), now));
      }
      es := Take(Sort(es, ByStory()), Clamp(edgeLimit, 1, 4000));
    }

    static lemma {:induction false} KeepAll(s: seq<Edge>)
      ensures Filter(s, (e: Edge) => true) == s
    {
      if s != [] {
        KeepAll(s[1..]);
        assert s == [s[0]] + s[1..];
      }
    }
  }
}
