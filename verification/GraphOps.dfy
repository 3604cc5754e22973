/** What applying a mutation does to the contents of a graph store. */
module GraphOps {
  import opened GraphModel

  function NodeKey(n: Node): (string, string) {
    (n.tenantId, n.nodeId)
  }

  function StateKey(s: EntityState): (string, string, string) {
    (s.tenantId, s.nodeId, s.stateKey)
  }

  /** Nodes are overwritten by tenant and id. */
  function PutNodes(m: map<(string, string), Node>, ns: seq<Node>): map<(string, string), Node>
    decreases |ns|
  {
    if ns == [] then m else PutNodes(m[NodeKey(ns[0]) := ns[0]], ns[1..])
  }

  /** Position of the first edge with the given id, or the length. */
  function PositionOf(es: seq<Edge>, id: string): (i: nat)
    ensures i <= |es|
    ensures i < |es| ==> es[i].edgeId == id
    ensures forall j :: 0 <= j < i ==> es[j].edgeId != id
  {
    if es == [] || es[0].edgeId == id then 0 else 1 + PositionOf(es[1..], id)
  }

  /** An edge replaces the one with its id in place, or goes to the end. */
  function PutEdge(es: seq<Edge>, e: Edge): seq<Edge> {
    var i := PositionOf(es, e.edgeId);
    if i < |es| then es[i := e] else es + [e]
  }

  function PutEdges(m: map<string, seq<Edge>>, es: seq<Edge>): map<string, seq<Edge>>
    decreases |es|
  {
    if es == [] then m
    else PutEdges(m[es[0].tenantId := PutEdge(ListFor(m, es[0].tenantId), es[0])], es[1..])
  }

  function Priority(v: string): nat {
    if v == "MERGED" then 3 else if v == "CLOSED" then 2 else if v == "OPEN" then 1 else 0
  }

  /** The state kept when `s` arrives: a later one wins, ties between events go by priority, then to the newcomer. */
  function MergeState(existing: Option<EntityState>, s: EntityState): EntityState {
    match existing
    case None => s
    case Some(x) =>
      if x.asOf > s.asOf then x
      else if x.asOf == s.asOf && x.eventId != s.eventId && x.stateValue != s.stateValue then
        if Priority(s.stateValue) >= Priority(x.stateValue) then s else x
      else s
  }

  function Lookup<K, V>(m: map<K, V>, k: K): Option<V> {
    if k in m then Some(m[k]) else None
  }

  function PutStates(m: map<(string, string, string), EntityState>, ss: seq<EntityState>): map<(string, string, string),
      EntityState>
    decreases |ss|
  {
    if ss == [] then m
    else PutStates(m[StateKey(ss[0]) := MergeState(Lookup(m, StateKey(ss[0])), ss[0])], ss[1..])
  }

  function Apply(g: Graph, m: Mutation): Graph {
    g.(nodes := PutNodes(g.nodes, m.nodes), edges := PutEdges(g.edges, m.edges), states :=
        PutStates(g.states, m.states))
  }

  function Mark(g: Graph, tenant: string, eventId: string): Graph {
    g.(applied := g.applied + {(tenant, eventId)})
  }

  // --- Invariant --------------------------------------------------------------

  ghost predicate UniqueIds(es: seq<Edge>) {
    forall i, j :: 0 <= i < j < |es| ==> es[i].edgeId != es[j].edgeId
  }

  ghost predicate EdgeListOk(tenant: string, es: seq<Edge>) {
    es != [] && UniqueIds(es) && forall e :: e in es ==> e.tenantId == tenant
  }

  /** The state stored under a key when its own access list allows it. */
  function AllowedState(g: Graph, ctx: QueryContext, node: string, key: string): Option<EntityState> {
    var k := (ctx.tenantId, node, key);
    if k in g.states && AclAllows(ctx, g.states[k].isPrivate, g.states[k].allowedGroups) then Some(g.states[k])
        else None
  }

  /** Every entry sits under its own key, and edge ids are unique within a tenant. */
  ghost predicate WellFormed(g: Graph) {
    && (forall k :: k in g.nodes ==> k == NodeKey(g.nodes[k]))
    && (forall t :: t in g.edges ==> EdgeListOk(t, g.edges[t]))
    && (forall k :: k in g.states ==> k == StateKey(g.states[k]))
  }

  lemma {:induction false} PutNodesKeepsKeys(m: map<(string, string), Node>, ns: seq<Node>)
    requires forall k :: k in m ==> k == NodeKey(m[k])
    ensures forall k :: k in PutNodes(m, ns) ==> k == NodeKey(PutNodes(m, ns)[k])
    decreases |ns|
  {
    if ns != [] {
      PutNodesKeepsKeys(m[NodeKey(ns[0]) := ns[0]], ns[1..]);
    }
  }

  lemma PutEdgeOk(tenant: string, es: seq<Edge>, e: Edge)
    requires e.tenantId == tenant && (es == [] || EdgeListOk(tenant, es))
    ensures EdgeListOk(tenant, PutEdge(es, e))
    ensures forall x :: x in PutEdge(es, e) <==> x == e || (x in es && x.edgeId != e.edgeId)
  {
    var i := PositionOf(es, e.edgeId);
    var r := PutEdge(es, e);
    assert r[i] == e;
    forall x | x in es && x.edgeId != e.edgeId ensures x in r {
      var j :| 0 <= j < |es| && es[j] == x;
      assert r[j] == x;
    }
  }

  lemma {:induction false} PutEdgesKeepsLists(m: map<string, seq<Edge>>, es: seq<Edge>)
    requires forall t :: t in m ==> EdgeListOk(t, m[t])
    ensures forall t :: t in PutEdges(m, es) ==> EdgeListOk(t, PutEdges(m, es)[t])
    decreases |es|
  {
    if es != [] {
      var t := es[0].tenantId;
      PutEdgeOk(t, ListFor(m, t), es[0]);
      PutEdgesKeepsLists(m[t := PutEdge(ListFor(m, t), es[0])], es[1..]);
    }
  }

  lemma {:induction false} PutNodesKeys(m: map<(string, string), Node>, ns: seq<Node>)
    ensures m.Keys <= PutNodes(m, ns).Keys
    ensures forall n :: n in ns ==> NodeKey(n) in PutNodes(m, ns)
    decreases |ns|
  {
    if ns != [] {
      PutNodesKeys(m[NodeKey(ns[0]) := ns[0]], ns[1..]);
    }
  }

  lemma {:induction false} PutEdgesFrom(m: map<string, seq<Edge>>, es: seq<Edge>, t: string, e: Edge)
    requires t in PutEdges(m, es) && e in PutEdges(m, es)[t]
    ensures (t in m && e in m[t]) || (e in es && e.tenantId == t)
    decreases |es|
  {
    if es != [] {
      var x := es[0];
      PutEdgesFrom(m[x.tenantId := PutEdge(ListFor(m, x.tenantId), x)], es[1..], t, e);
    }
  }

  lemma {:induction false} PutStatesKeepsKeys(m: map<(string, string, string), EntityState>, ss: seq<EntityState>)
    requires forall k :: k in m ==> k == StateKey(m[k])
    ensures forall k :: k in PutStates(m, ss) ==> k == StateKey(PutStates(m, ss)[k])
    decreases |ss|
  {
    if ss != [] {
      PutStatesKeepsKeys(m[StateKey(ss[0]) := MergeState(Lookup(m, StateKey(ss[0])), ss[0])], ss[1..]);
    }
  }

  /** Every mutation keeps the store well formed. */
  lemma ApplyKeepsWellFormed(g: Graph, m: Mutation)
    requires WellFormed(g)
    ensures WellFormed(Apply(g, m))
  {
    PutNodesKeepsKeys(g.nodes, m.nodes);
    PutEdgesKeepsLists(g.edges, m.edges);
    PutStatesKeepsKeys(g.states, m.states);
  }

  // --- Order of arrival of states ---------------------------------------------

  /**
   * When two events' states for one key arrive in either order, time and value agree exactly unless they tie without a
   * ranking.
   */
  lemma MergeOrderIndependentIff(a: EntityState, b: EntityState)
    requires a.eventId != b.eventId
    ensures var ab, ba := MergeState(Some(a), b), MergeState(Some(b), a);
            (ab.asOf == ba.asOf && ab.stateValue == ba.stateValue) <==>
              (a.asOf != b.asOf || a.stateValue == b.stateValue || Priority(a.stateValue) != Priority(b.stateValue))
  {
  }
}
