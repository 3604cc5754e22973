/** Layered search for everything within a number of hops of a root. */
module NeighborhoodSearch {
  import opened GraphModel
  import opened Reach
  import opened Sorting

  datatype Neighborhood = Neighborhood(root: Node, nodes: seq<Node>, edges: seq<Edge>, hops: nat)

  /** The search variables: ids seen, output so far, and the next frontier. */
  datatype Visit = Visit(seen: set<string>, nodes: seq<Node>, edges: seq<Edge>, next: seq<string>)

  predicate HasEdgeId(edges: seq<Edge>, id: string) {
    exists i | 0 <= i < |edges| :: edges[i].edgeId == id
  }

  function Start(nodes: map<string, Node>, root: string): Visit
    requires root in nodes
  {
    Visit({root}, [nodes[root]], [], [])
  }

  /** Follows one edge from `at`. */
  function Follow(nodes: map<string, Node>, e: Edge, at: string, v: Visit): Visit {
    match Other(e, at)
    case None => v
    case Some(other) =>
      if other !in nodes then v
      else
        var w := if HasEdgeId(v.edges, e.edgeId) then v else v.(edges := v.edges + [e]);
        if other in w.seen then w
        else w.(seen := w.seen + {other}, nodes := w.nodes + [nodes[other]], next := w.next + [other])
  }

  function FollowAll(nodes: map<string, Node>, edges: seq<Edge>, at: string, v: Visit): Visit {
    if edges == [] then v else FollowAll(nodes, edges[1..], at, Follow(nodes, edges[0], at, v))
  }

  function Sweep(nodes: map<string, Node>, edges: seq<Edge>, frontier: seq<string>, v: Visit): Visit {
    if frontier == [] then v else Sweep(nodes, edges, frontier[1..], FollowAll(nodes, edges, frontier[0], v))
  }

  function Rounds(nodes: map<string, Node>, edges: seq<Edge>, frontier: seq<string>, k: nat, v: Visit): Visit
    decreases k
  {
    if k == 0 || frontier == [] then v
    else
      var w := Sweep(nodes, edges, frontier, v.(next := []));
      Rounds(nodes, edges, w.next, k - 1, w)
  }

  /** The answer to a neighbourhood query on the visible part of the graph. */
  function FindNeighborhood(nodes: map<string, Node>, edges: seq<Edge>, root: string, hops: nat): Option<Neighborhood> {
    if root !in nodes then None
    else
      var h := Clamp(hops, 1, 6);
      var v := Rounds(nodes, edges, [root], h, Start(nodes, root));
      Some(Neighborhood(nodes[root], v.nodes, v.edges, h))
  }

  // --- What one sweep adds --------------------------------------------------

  /** `e` leads from `a` to a node the caller sees. */
  predicate Touches(nodes: map<string, Node>, e: Edge, a: string) {
    Other(e, a).Some? && Other(e, a).value in nodes
  }

  ghost predicate KeyedById(nodes: map<string, Node>) {
    forall k :: k in nodes ==> nodes[k].nodeId == k
  }

  ghost predicate UniqueEdgeIds(edges: seq<Edge>) {
    forall a, b :: a in edges && b in edges && a.edgeId == b.edgeId ==> a == b
  }

  /** The output lists hold what was seen, once each; `next` holds what was seen beyond `base`. */
  ghost predicate Tidy(nodes: map<string, Node>, edges: seq<Edge>, base: set<string>, v: Visit) {
    && base <= v.seen <= nodes.Keys
    && |v.nodes| == |v.seen| && NoRepeats(v.nodes)
    && (forall n :: n in v.nodes <==> n.nodeId in v.seen && n == nodes[n.nodeId])
    && (forall x :: x in v.next <==> x in v.seen && x !in base)
    && NoRepeats(v.edges) && (forall e :: e in v.edges ==> e in edges)
  }

  /** `v` comes from `u` by following exactly the edge ends listed in `ends`. */
  ghost predicate Followed(nodes: map<string, Node>, ends: set<(string, Edge)>, u: Visit, v: Visit) {
    && (forall x :: x in v.seen <==> x in u.seen || exists p :: p in ends && Leads(nodes, p, x))
    && (forall e :: e in v.edges <==> e in u.edges || exists p :: p in ends && p.1 == e && Touches(nodes, e, p.0))
  }

  predicate Leads(nodes: map<string, Node>, p: (string, Edge), x: string) {
    x in nodes && Other(p.1, p.0) == Some(x)
  }

  lemma FollowTidy(nodes: map<string, Node>, edges: seq<Edge>, base: set<string>, e: Edge, at: string, v: Visit)
    requires KeyedById(nodes) && UniqueEdgeIds(edges) && e in edges && Tidy(nodes, edges, base, v)
    ensures Tidy(nodes, edges, base, Follow(nodes, e, at, v))
    ensures Followed(nodes, {(at, e)}, v, Follow(nodes, e, at, v))
  {
    var w := Follow(nodes, e, at, v);
    if Touches(nodes, e, at) {
      if HasEdgeId(v.edges, e.edgeId) {
        assert e in v.edges;
      } else {
        assert e !in v.edges;
      }
      var x := Other(e, at).value;
      if x !in v.seen {
        assert nodes[x] !in v.nodes;
      }
      assert (at, e) in {(at, e)} && Leads(nodes, (at, e), x);
    }
  }

  lemma FollowedCompose(nodes: map<string, Node>, first: set<(string, Edge)>, second: set<(string, Edge)>,
                        u: Visit, v: Visit, w: Visit)
    requires Followed(nodes, first, u, v) && Followed(nodes, second, v, w)
    ensures Followed(nodes, first + second, u, w)
  {
    forall x ensures x in w.seen <==> x in u.seen || exists p :: p in first + second && Leads(nodes, p, x) {
      if x in w.seen && x !in u.seen {
        if x in v.seen {
          var p :| p in first && Leads(nodes, p, x);
          assert p in first + second;
        } else {
          var p :| p in second && Leads(nodes, p, x);
          assert p in first + second;
        }
      }
    }
    forall e ensures e in w.edges <==> e in u.edges || exists p ::
        p in first + second && p.1 == e && Touches(nodes, e, p.0) {
      if e in w.edges && e !in u.edges {
        if e in v.edges {
          var p :| p in first && p.1 == e && Touches(nodes, e, p.0);
          assert p in first + second;
        } else {
          var p :| p in second && p.1 == e && Touches(nodes, e, p.0);
          assert p in first + second;
        }
      }
    }
  }

  ghost function EndsAt(edges: seq<Edge>, at: string): set<(string, Edge)> {
    set e | e in edges :: (at, e)
  }

  ghost function Ends(edges: seq<Edge>, frontier: seq<string>): set<(string, Edge)> {
    set a, e | a in frontier && e in edges :: (a, e)
  }

  lemma {:induction false} FollowAllTidy(nodes: map<string, Node>, edges: seq<Edge>, base: set<string>,
                                         todo: seq<Edge>, at: string, v: Visit)
    requires KeyedById(nodes) && UniqueEdgeIds(edges) && Tidy(nodes, edges, base, v)
    requires forall e :: e in todo ==> e in edges
    ensures Tidy(nodes, edges, base, FollowAll(nodes, todo, at, v))
    ensures Followed(nodes, EndsAt(todo, at), v, FollowAll(nodes, todo, at, v))
    decreases |todo|
  {
    if todo != [] {
      var w := Follow(nodes, todo[0], at, v);
      FollowTidy(nodes, edges, base, todo[0], at, v);
      FollowAllTidy(nodes, edges, base, todo[1..], at, w);
      FollowedCompose(nodes, {(at, todo[0])}, EndsAt(todo[1..], at), v, w, FollowAll(nodes, todo, at, v));
      assert {(at, todo[0])} + EndsAt(todo[1..], at) == EndsAt(todo, at);
    }
  }

  lemma {:induction false} SweepTidy(nodes: map<string, Node>, edges: seq<Edge>, base: set<string>,
      frontier: seq<string>, v: Visit)
    requires KeyedById(nodes) && UniqueEdgeIds(edges) && Tidy(nodes, edges, base, v)
    ensures Tidy(nodes, edges, base, Sweep(nodes, edges, frontier, v))
    ensures Followed(nodes, Ends(edges, frontier), v, Sweep(nodes, edges, frontier, v))
    decreases |frontier|
  {
    if frontier != [] {
      var w := FollowAll(nodes, edges, frontier[0], v);
      FollowAllTidy(nodes, edges, base, edges, frontier[0], v);
      SweepTidy(nodes, edges, base, frontier[1..], w);
      FollowedCompose(nodes, EndsAt(edges, frontier[0]), Ends(edges, frontier[1..]), v, w,
          Sweep(nodes, edges, frontier, v));
      assert EndsAt(edges, frontier[0]) + Ends(edges, frontier[1..]) == Ends(edges, frontier);
    }
  }

  // --- Layers -----------------------------------------------------------------

  ghost function Incident(nodes: map<string, Node>, edges: seq<Edge>, inner: set<string>): set<Edge> {
    set e | e in edges && exists a :: a in inner && Touches(nodes, e, a)
  }

  ghost function Neighbours(nodes: map<string, Node>, edges: seq<Edge>, inner: set<string>): set<string> {
    set b | b in nodes && exists a :: a in inner && Adjacent(nodes, edges, a, b)
  }

  /** Less than `k` steps away. */
  ghost predicate Nearer(nodes: map<string, Node>, edges: seq<Edge>, root: string, x: string, k: nat) {
    k > 0 && Near(nodes, edges, root, x, k - 1)
  }

  /** `v` lists the nodes at most `k` steps away and the edges met less than `k` steps away. */
  ghost predicate Lists(nodes: map<string, Node>, edges: seq<Edge>, root: string, k: nat, v: Visit) {
    && (forall x :: x in v.seen <==> Near(nodes, edges, root, x, k))
    && (forall e :: e in v.edges <==>
          e in edges && exists a :: Nearer(nodes, edges, root, a, k) && Touches(nodes, e, a))
    && Tidy(nodes, edges, v.seen, v.(next := []))
  }

  /** The frontier is the outermost layer. */
  ghost predicate Layered(nodes: map<string, Node>, edges: seq<Edge>, root: string, j: nat, frontier: seq<string>,
      v: Visit) {
    && Lists(nodes, edges, root, j, v)
    && (forall x :: x in frontier <==> x in v.seen && !Nearer(nodes, edges, root, x, j))
  }

  lemma SweepAddsNodes(nodes: map<string, Node>, edges: seq<Edge>, frontier: seq<string>, inner: set<string>, u: Visit,
      w: Visit)
    requires Followed(nodes, Ends(edges, frontier), u, w)
    requires Neighbours(nodes, edges, inner) <= u.seen
    requires forall x :: x in frontier <==> x in u.seen && x !in inner
    ensures w.seen == u.seen + Neighbours(nodes, edges, u.seen)
  {
    forall x ensures x in w.seen <==> x in u.seen || x in Neighbours(nodes, edges, u.seen) {
      if x in w.seen && x !in u.seen {
        var p :| p in Ends(edges, frontier) && Leads(nodes, p, x);
        assert Adjacent(nodes, edges, p.0, x);
      }
      if x in Neighbours(nodes, edges, u.seen) && x !in u.seen {
        var a :| a in u.seen && Adjacent(nodes, edges, a, x);
        assert a !in inner;
        var e :| e in edges && Other(e, a) == Some(x);
        assert (a, e) in Ends(edges, frontier) && Leads(nodes, (a, e), x);
      }
    }
  }

  lemma SweepAddsEdges(nodes: map<string, Node>, edges: seq<Edge>, frontier: seq<string>, inner: set<string>, u: Visit,
      w: Visit)
    requires Followed(nodes, Ends(edges, frontier), u, w)
    requires inner <= u.seen && forall x :: x in frontier <==> x in u.seen && x !in inner
    requires forall e :: e in u.edges <==> e in Incident(nodes, edges, inner)
    ensures forall e :: e in w.edges <==> e in Incident(nodes, edges, u.seen)
  {
    forall e ensures e in w.edges <==> e in Incident(nodes, edges, u.seen) {
      if e in w.edges && e !in u.edges {
        var p :| p in Ends(edges, frontier) && p.1 == e && Touches(nodes, e, p.0);
        assert p.0 in u.seen;
      }
      if e in Incident(nodes, edges, u.seen) {
        var a :| a in u.seen && Touches(nodes, e, a);
        if a !in inner {
          assert (a, e) in Ends(edges, frontier);
        }
      }
    }
  }

  ghost function InnerOf(nodes: map<string, Node>, edges: seq<Edge>, root: string, j: nat,
      seen: set<string>): set<string> {
    set x | x in seen && Nearer(nodes, edges, root, x, j)
  }

  lemma InnerFacts(nodes: map<string, Node>, edges: seq<Edge>, root: string, j: nat, frontier: seq<string>, v: Visit)
    requires Layered(nodes, edges, root, j, frontier, v)
    ensures var inner := InnerOf(nodes, edges, root, j, v.seen);
            Neighbours(nodes, edges, inner) <= v.seen &&
            (forall a :: Nearer(nodes, edges, root, a, j) ==> a in inner)
  {
    var inner := InnerOf(nodes, edges, root, j, v.seen);
    forall x | x in Neighbours(nodes, edges, inner) ensures x in v.seen {
      var a :| a in inner && Adjacent(nodes, edges, a, x);
      assert NextToNear(nodes, edges, root, x, j - 1);
    }
    forall a | Nearer(nodes, edges, root, a, j) ensures a in inner {
      NearGrows(nodes, edges, root, a, j - 1, j);
    }
  }

  lemma SweepAddsLayer(nodes: map<string, Node>, edges: seq<Edge>, root: string, j: nat, frontier: seq<string>,
      v: Visit)
    requires KeyedById(nodes) && UniqueEdgeIds(edges) && Layered(nodes, edges, root, j, frontier, v)
    ensures var w := Sweep(nodes, edges, frontier, v.(next := []));
            Layered(nodes, edges, root, j + 1, w.next, w)
  {
    var u := v.(next := []);
    var w := Sweep(nodes, edges, frontier, u);
    var inner := InnerOf(nodes, edges, root, j, v.seen);
    SweepTidy(nodes, edges, v.seen, frontier, u);
    InnerFacts(nodes, edges, root, j, frontier, v);
    SweepAddsNodes(nodes, edges, frontier, inner, u, w);
    assert forall e :: e in u.edges <==> e in Incident(nodes, edges, inner);
    SweepAddsEdges(nodes, edges, frontier, inner, u, w);
    forall x ensures x in w.seen <==> Near(nodes, edges, root, x, j + 1) {
      NextLayer(nodes, edges, root, j, u.seen, x);
    }
    LayerDone(nodes, edges, root, j, u.seen, w);
  }

  lemma LayerDone(nodes: map<string, Node>, edges: seq<Edge>, root: string, j: nat, seen: set<string>, w: Visit)
    requires forall y :: y in seen <==> Near(nodes, edges, root, y, j)
    requires forall x :: x in w.seen <==> Near(nodes, edges, root, x, j + 1)
    requires forall e :: e in w.edges <==> e in Incident(nodes, edges, seen)
    requires Tidy(nodes, edges, seen, w)
    ensures Layered(nodes, edges, root, j + 1, w.next, w)
  {
    EdgesDone(nodes, edges, root, j, seen, w.edges);
    TidyAgain(nodes, edges, seen, w);
  }

  lemma TidyAgain(nodes: map<string, Node>, edges: seq<Edge>, base: set<string>, w: Visit)
    requires Tidy(nodes, edges, base, w)
    ensures Tidy(nodes, edges, w.seen, w.(next := []))
  {
  }

  lemma EdgesDone(nodes: map<string, Node>, edges: seq<Edge>, root: string, j: nat, seen: set<string>, out: seq<Edge>)
    requires forall y :: y in seen <==> Near(nodes, edges, root, y, j)
    requires forall e :: e in out <==> e in Incident(nodes, edges, seen)
    ensures forall e :: e in out <==>
              e in edges && exists a :: Nearer(nodes, edges, root, a, j + 1) && Touches(nodes, e, a)
  {
    forall e ensures e in out <==> e in edges && exists a ::
        Nearer(nodes, edges, root, a, j + 1) && Touches(nodes, e, a) {
      if e in out {
        var a :| a in seen && Touches(nodes, e, a);
        assert Nearer(nodes, edges, root, a, j + 1);
      }
    }
  }

  lemma NextLayer(nodes: map<string, Node>, edges: seq<Edge>, root: string, j: nat, seen: set<string>, x: string)
    requires forall y :: y in seen <==> Near(nodes, edges, root, y, j)
    ensures x in seen + Neighbours(nodes, edges, seen) <==> Near(nodes, edges, root, x, j + 1)
  {
    if x in Neighbours(nodes, edges, seen) {
      assert NextToNear(nodes, edges, root, x, j);
    }
  }

  lemma EmptyFrontier(nodes: map<string, Node>, edges: seq<Edge>, root: string, j: nat, k: nat, v: Visit)
    requires root in nodes && j <= k && Layered(nodes, edges, root, j, [], v)
    ensures Lists(nodes, edges, root, k, v)
  {
    NearGrows(nodes, edges, root, root, 0, j);
    assert root in v.seen && j > 0;
    forall x ensures Near(nodes, edges, root, x, k) <==> Near(nodes, edges, root, x, j) {
      SameLayers(nodes, edges, root, x, j, k);
    }
    forall x ensures Nearer(nodes, edges, root, x, k) <==> Nearer(nodes, edges, root, x, j) {
      SameLayers(nodes, edges, root, x, j, k);
    }
  }

  lemma SameLayers(nodes: map<string, Node>, edges: seq<Edge>, root: string, x: string, j: nat, k: nat)
    requires 0 < j <= k
    requires forall y :: Near(nodes, edges, root, y, j) ==> Nearer(nodes, edges, root, y, j)
    ensures Near(nodes, edges, root, x, k) <==> Near(nodes, edges, root, x, j)
    ensures Nearer(nodes, edges, root, x, k) <==> Nearer(nodes, edges, root, x, j)
  {
    forall m: nat | j - 1 <= m && Near(nodes, edges, root, x, m) ensures Near(nodes, edges, root, x, j - 1) {
      NearStops(nodes, edges, root, x, j - 1, m);
    }
    forall m: nat | j - 1 <= m && Near(nodes, edges, root, x, j - 1) ensures Near(nodes, edges, root, x, m) {
      NearGrows(nodes, edges, root, x, j - 1, m);
    }
  }

  lemma {:induction false} RoundsComplete(nodes: map<string, Node>, edges: seq<Edge>, root: string,
                                          j: nat, frontier: seq<string>, k: nat, v: Visit)
    requires KeyedById(nodes) && UniqueEdgeIds(edges) && root in nodes && Layered(nodes, edges, root, j, frontier, v)
    ensures Lists(nodes, edges, root, j + k, Rounds(nodes, edges, frontier, k, v))
    decreases k
  {
    if k > 0 {
      if frontier == [] {
        EmptyFrontier(nodes, edges, root, j, j + k, v);
      } else {
        var w := Sweep(nodes, edges, frontier, v.(next := []));
        SweepAddsLayer(nodes, edges, root, j, frontier, v);
        RoundsComplete(nodes, edges, root, j + 1, w.next, k - 1, w);
      }
    }
  }

  /** The nodes returned are, once each, those joined to the root by a walk of at most `hops` edges. */
  lemma NeighborhoodNodes(nodes: map<string, Node>, edges: seq<Edge>, root: string, hops: nat)
    requires KeyedById(nodes) && UniqueEdgeIds(edges) && root in nodes
    ensures var r := FindNeighborhood(nodes, edges, root, hops).value;
            r.root == nodes[root] && r.hops == Clamp(hops, 1, 6) && NoRepeats(r.nodes) &&
            forall n :: n in r.nodes <==>
              n.nodeId in nodes && n == nodes[n.nodeId] && Within(nodes, edges, root, n.nodeId, r.hops)
  {
    var h := Clamp(hops, 1, 6);
    var v := AllRounds(nodes, edges, root, h);
    NodesWithin(nodes, edges, root, h, v);
  }

  lemma AllRounds(nodes: map<string, Node>, edges: seq<Edge>, root: string, h: nat) returns (v: Visit)
    requires KeyedById(nodes) && UniqueEdgeIds(edges) && root in nodes
    ensures v == Rounds(nodes, edges, [root], h, Start(nodes, root)) && Lists(nodes, edges, root, h, v)
  {
    v := Rounds(nodes, edges, [root], h, Start(nodes, root));
    RoundsComplete(nodes, edges, root, 0, [root], h, Start(nodes, root));
  }

  lemma NodesWithin(nodes: map<string, Node>, edges: seq<Edge>, root: string, h: nat, v: Visit)
    requires KeyedById(nodes) && root in nodes && Lists(nodes, edges, root, h, v)
    ensures NoRepeats(v.nodes)
    ensures forall n :: n in v.nodes <==>
              n.nodeId in nodes && n == nodes[n.nodeId] && Within(nodes, edges, root, n.nodeId, h)
  {
    forall x ensures Near(nodes, edges, root, x, h) <==> Within(nodes, edges, root, x, h) {
      NearIffWalk(nodes, edges, root, x, h);
    }
  }

  /**
   * The edges returned are, once each, those with both ends visible and one end less than `hops` away;
   * both of their ends are among the nodes returned.
   */
  lemma NeighborhoodEdges(nodes: map<string, Node>, edges: seq<Edge>, root: string, hops: nat)
    requires KeyedById(nodes) && UniqueEdgeIds(edges) && root in nodes
    ensures var r := FindNeighborhood(nodes, edges, root, hops).value;
            NoRepeats(r.edges) &&
            (forall e :: e in r.edges <==>
              e in edges && exists a :: Touches(nodes, e, a) && Within(nodes, edges, root, a, r.hops - 1)) &&
            (forall e :: e in r.edges ==>
              e.fromId in nodes && e.toId in nodes && nodes[e.fromId] in r.nodes && nodes[e.toId] in r.nodes)
  {
    var h := Clamp(hops, 1, 6);
    RoundsComplete(nodes, edges, root, 0, [root], h, Start(nodes, root));
    forall x ensures Nearer(nodes, edges, root, x, h) <==> Within(nodes, edges, root, x, h - 1) {
      NearIffWalk(nodes, edges, root, x, h - 1);
    }
    BothEndsReturned(nodes, edges, root, hops);
  }

  lemma BothEndsReturned(nodes: map<string, Node>, edges: seq<Edge>, root: string, hops: nat)
    requires KeyedById(nodes) && UniqueEdgeIds(edges) && root in nodes
    ensures var r := FindNeighborhood(nodes, edges, root, hops).value;
            forall e :: e in r.edges ==>
              e.fromId in nodes && e.toId in nodes && nodes[e.fromId] in r.nodes && nodes[e.toId] in r.nodes
  {
    var h := Clamp(hops, 1, 6);
    var r := FindNeighborhood(nodes, edges, root, hops).value;
    var v := Rounds(nodes, edges, [root], h, Start(nodes, root));
    RoundsComplete(nodes, edges, root, 0, [root], h, Start(nodes, root));
    forall e | e in r.edges ensures e.fromId in v.seen && e.toId in v.seen {
      EndsReturned(nodes, edges, root, h, e);
    }
  }

  lemma EndsReturned(nodes: map<string, Node>, edges: seq<Edge>, root: string, h: nat, e: Edge)
    requires e in edges && exists a :: Nearer(nodes, edges, root, a, h) && Touches(nodes, e, a)
    ensures Near(nodes, edges, root, e.fromId, h) && Near(nodes, edges, root, e.toId, h)
  {
    var a :| Nearer(nodes, edges, root, a, h) && Touches(nodes, e, a);
    NearGrows(nodes, edges, root, a, h - 1, h);
    assert Adjacent(nodes, edges, a, Other(e, a).value);
    assert NextToNear(nodes, edges, root, Other(e, a).value, h - 1);
  }
}
