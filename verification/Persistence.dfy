/** Snapshots of the graph and membership stores, and what a restart from them preserves. */
module Persistence {
  import opened GraphModel
  import opened GraphOps
  import opened GraphStore
  import opened Projection
  import opened Sorting
  import EventMapping
  import Membership
  import Text

  datatype Snapshot = Snapshot(nodes: seq<Node>, edges: seq<Edge>, states: seq<EntityState>,
      applied: seq<(string, string)>)

  function OwnedBy(t: string): Edge -> bool {
    (e: Edge) => e.tenantId == t
  }

  /** A snapshot of `g`, entries of each map in any order, edges of a tenant in store order. */
  ghost predicate ExportOf(g: Graph, snap: Snapshot) {
    && (forall n :: n in snap.nodes <==> NodeKey(n) in g.nodes && g.nodes[NodeKey(n)] == n)
    && (forall t :: Filter(snap.edges, OwnedBy(t)) == ListFor(g.edges, t))
    && (forall s :: s in snap.states <==> StateKey(s) in g.states && g.states[StateKey(s)] == s)
    && (forall id :: id in snap.applied <==> id in g.applied)
  }

  /** Imported edges are appended without looking for their id. */
  function AppendEdges(m: map<string, seq<Edge>>, es: seq<Edge>): map<string, seq<Edge>>
    decreases |es|
  {
    if es == [] then m else AppendEdges(m[es[0].tenantId := ListFor(m, es[0].tenantId) + [es[0]]], es[1..])
  }

  function InsertStates(m: map<(string, string, string), EntityState>, ss: seq<EntityState>): map<(string, string,
      string), EntityState>
    decreases |ss|
  {
    if ss == [] then m else InsertStates(m[StateKey(ss[0]) := ss[0]], ss[1..])
  }

  function Import(g: Graph, snap: Snapshot): Graph {
    Graph(
      g.applied + (set id | id in snap.applied),
      PutNodes(g.nodes, snap.nodes),
      AppendEdges(g.edges, snap.edges),
      InsertStates(g.states, snap.states))
  }

  method ImportSnapshot(store: InMemoryGraphStore, snap: Snapshot)
    modifies store
    ensures store.Contents() == Import(old(store.Contents()), snap)
  {
    store.PutAllNodes(snap.nodes);
    for i := 0 to |snap.edges|
      invariant AppendEdges(store.edges, snap.edges[i..]) == AppendEdges(old(store.edges), snap.edges)
      invariant store.nodes == PutNodes(old(store.nodes), snap.nodes)
      invariant store.states == old(store.states) && store.applied == old(store.applied)
    {
      var e := snap.edges[i];
      store.edges := store.edges[e.tenantId := ListFor(store.edges, e.tenantId) + [e]];
    }
    for i := 0 to |snap.states|
      invariant InsertStates(store.states, snap.states[i..]) == InsertStates(old(store.states), snap.states)
      invariant store.nodes == PutNodes(old(store.nodes), snap.nodes)
      invariant store.edges == AppendEdges(old(store.edges), snap.edges) && store.applied == old(store.applied)
    {
      store.states := store.states[StateKey(snap.states[i]) := snap.states[i]];
    }
    store.applied := store.applied + (set id | id in snap.applied);
  }

  lemma {:induction false} FilterUniform(es: seq<Edge>, p: Edge -> bool, yes: bool)
    requires forall e :: e in es ==> p(e) == yes
    ensures Filter(es, p) == if yes then es else []
  {
    if es != [] {
      assert es[0] in es;
      FilterUniform(es[1..], p, yes);
      assert es == [es[0]] + es[1..];
    }
  }

  /** Collects the edge lists of all tenants, visited in an arbitrary order. */
  method ExportEdges(store: InMemoryGraphStore) returns (out: seq<Edge>)
    requires WellFormed(store.Contents())
    ensures forall t :: Filter(out, OwnedBy(t)) == ListFor(store.edges, t)
  {
    out := [];
    var todo := store.edges.Keys;
    while todo != {}
      invariant todo <= store.edges.Keys
      invariant forall t :: Filter(out, OwnedBy(t)) == if t in todo then [] else ListFor(store.edges, t)
      decreases todo
    {
      var k :| k in todo;
      forall t ensures Filter(out + store.edges[k], OwnedBy(t)) == if t in todo - {k} then []
          else ListFor(store.edges, t) {
        FilterAppend(out, store.edges[k], OwnedBy(t));
        FilterUniform(store.edges[k], OwnedBy(t), t == k);
      }
      todo := todo - {k};
      out := out + store.edges[k];
    }
  }

  method ExportSnapshot(store: InMemoryGraphStore) returns (snap: Snapshot)
    requires WellFormed(store.Contents())
    ensures ExportOf(store.Contents(), snap)
  {
    var edges := ExportEdges(store);
    var nodes: seq<Node> := [];
    var nodeKeys := store.nodes.Keys;
    while nodeKeys != {}
      invariant nodeKeys <= store.nodes.Keys
      invariant forall n :: n in nodes <==> store.Stored(n) && NodeKey(n) !in nodeKeys
      decreases nodeKeys
    {
      var k :| k in nodeKeys;
      nodeKeys := nodeKeys - {k};
      nodes := nodes + [store.nodes[k]];
    }
    var states := ExportStates(store);
    var applied: seq<(string, string)> := [];
    var ids := store.applied;
    while ids != {}
      invariant ids <= store.applied && forall id :: id in applied <==> id in store.applied && id !in ids
      decreases ids
    {
      var id :| id in ids;
      ids := ids - {id};
      applied := applied + [id];
    }
    snap := Snapshot(nodes, edges, states, applied);
  }

  method ExportStates(store: InMemoryGraphStore) returns (out: seq<EntityState>)
    requires WellFormed(store.Contents())
    ensures forall s :: s in out <==> StateKey(s) in store.states && store.states[StateKey(s)] == s
  {
    out := [];
    var todo := store.states.Keys;
    while todo != {}
      invariant todo <= store.states.Keys
      invariant forall s :: s in out <==>
          StateKey(s) in store.states && store.states[StateKey(s)] == s && StateKey(s) !in todo
      decreases todo
    {
      var k :| k in todo;
      todo := todo - {k};
      out := out + [store.states[k]];
    }
  }

  // --- Round trip -------------------------------------------------------------------

  lemma {:induction false} PutNodesWithin(m: map<(string, string), Node>, ns: seq<Node>, whole: map<(string, string),
      Node>)
    requires forall n :: n in ns ==> NodeKey(n) in whole && whole[NodeKey(n)] == n
    requires forall k :: k in m ==> k in whole && m[k] == whole[k]
    ensures forall k :: k in PutNodes(m, ns) ==> k in whole && PutNodes(m, ns)[k] == whole[k]
    decreases |ns|
  {
    if ns != [] {
      assert ns[0] in ns;
      PutNodesWithin(m[NodeKey(ns[0]) := ns[0]], ns[1..], whole);
    }
  }

  lemma {:induction false} InsertStatesWithin(m: map<(string, string, string), EntityState>, ss: seq<EntityState>,
                                              whole: map<(string, string, string), EntityState>)
    requires forall s :: s in ss ==> StateKey(s) in whole && whole[StateKey(s)] == s
    requires forall k :: k in m ==> k in whole && m[k] == whole[k]
    ensures forall k :: k in InsertStates(m, ss) ==> k in whole && InsertStates(m, ss)[k] == whole[k]
    ensures m.Keys <= InsertStates(m, ss).Keys && forall s :: s in ss ==> StateKey(s) in InsertStates(m, ss)
    decreases |ss|
  {
    if ss != [] {
      assert ss[0] in ss;
      InsertStatesWithin(m[StateKey(ss[0]) := ss[0]], ss[1..], whole);
    }
  }

  lemma {:induction false} AppendedLists(m: map<string, seq<Edge>>, es: seq<Edge>, t: string)
    ensures ListFor(AppendEdges(m, es), t) == ListFor(m, t) + Filter(es, OwnedBy(t))
    ensures t in AppendEdges(m, es) <==> t in m || Filter(es, OwnedBy(t)) != []
    decreases |es|
  {
    if es != [] {
      AppendedLists(m[es[0].tenantId := ListFor(m, es[0].tenantId) + [es[0]]], es[1..], t);
    }
  }

  /** Importing a snapshot into an empty store restores the graph it was taken from. */
  lemma GraphRoundTrip(g: Graph, snap: Snapshot)
    requires WellFormed(g) && ExportOf(g, snap)
    ensures Import(EmptyGraph, snap) == g
  {
    var back := Import(EmptyGraph, snap);
    PutNodesWithin(map[], snap.nodes, g.nodes);
    PutNodesKeys(map[], snap.nodes);
    forall k | k in g.nodes ensures k in back.nodes {
      assert g.nodes[k] in snap.nodes;
    }
    assert back.nodes == g.nodes;
    InsertStatesWithin(map[], snap.states, g.states);
    forall k | k in g.states ensures k in back.states {
      assert g.states[k] in snap.states;
    }
    assert back.states == g.states;
    EdgesRoundTrip(g, snap);
    assert back.applied == g.applied;
  }

  lemma EdgesRoundTrip(g: Graph, snap: Snapshot)
    requires WellFormed(g) && ExportOf(g, snap)
    ensures AppendEdges(map[], snap.edges) == g.edges
  {
    forall t ensures (t in AppendEdges(map[], snap.edges) <==> t in g.edges)
                  && (t in g.edges ==> AppendEdges(map[], snap.edges)[t] == g.edges[t]) {
      AppendedLists(map[], snap.edges, t);
      assert Filter(snap.edges, OwnedBy(t)) == ListFor(g.edges, t);
    }
  }

  /**
   * Importing a snapshot into the store it came from repeats every edge: edge ids stay unique only if there are none.
   */
  lemma ReimportBreaksUniquenessIff(g: Graph, snap: Snapshot)
    requires WellFormed(g) && ExportOf(g, snap)
    ensures WellFormed(Import(g, snap)) <==> g.edges == map[]
  {
    if t :| t in g.edges {
      AppendedLists(g.edges, snap.edges, t);
      assert Filter(snap.edges, OwnedBy(t)) == ListFor(g.edges, t);
      var list := Import(g, snap).edges[t];
      assert list == g.edges[t] + g.edges[t];
      assert list[0].edgeId == list[|g.edges[t]|].edgeId;
    } else {
      GraphRoundTrip(g, snap);
      PutNodesKeepsKeys(g.nodes, snap.nodes);
      forall t ensures t !in AppendEdges(g.edges, snap.edges) {
        AppendedLists(g.edges, snap.edges, t);
        assert Filter(snap.edges, OwnedBy(t)) == ListFor(g.edges, t);
      }
      InsertStatesWithin(g.states, snap.states, g.states);
    }
  }

  /** A tenant that a membership snapshot can hold. */
  predicate UsableTenant(tenant: string) {
    tenant != "" && '|' !in tenant
  }

  lemma ChangeRecords(m: Membership.Members, tenant: string, user: string, group: string, change: string)
    ensures forall k :: k in ChangeOrKeep(m, tenant, user, group, change) ==> k in m || (k.1 != "" && k.0 == tenant)
  {
  }

  lemma ProjectRecords(rules: EventMapping.Rules, s: System, i: Input)
    ensures forall k :: k in Project(rules, s, i).members ==> k in s.members || (k.1 != "" && k.0 == IdOf(i).0)
  {
    match i
    case Rev(r) => ChangeRecords(s.members, r.tenantId, r.userId, r.groupId, r.changeType);
    case Ev(e) => EventRecords(s.members, e);
  }

  lemma EventRecords(m: Membership.Members, ev: EventMapping.Event)
    ensures forall k :: k in MembershipAfter(m, ev) ==> k in m || (k.1 != "" && k.0 == ev.tenantId)
  {
    var member := TextOr(ev.attributes, ["member", "user"], ev.actor.globalUserId);
    ChangeRecords(m, ev.tenantId, if ev.actor.globalUserId != "" then ev.actor.globalUserId else member,
                  TextOr(ev.attributes, ["team", "group_name", "channel"], ""),
                  MembershipVerb(Text.Lower(ev.eventType)));
  }

  /** Every user on record has a nonempty id and belongs to the tenant of some input. */
  lemma {:induction false} RecordedUsers(rules: EventMapping.Rules, inputs: seq<Input>)
    ensures forall k :: k in Run(rules, EmptySystem, inputs).members ==>
              k.1 != "" && exists i :: i in inputs && IdOf(i).0 == k.0
  {
    if inputs != [] {
      var init, last := inputs[..|inputs| - 1], inputs[|inputs| - 1];
      RecordedUsers(rules, init);
      var before, after := Run(rules, EmptySystem, init), Run(rules, EmptySystem, inputs);
      ProjectRecords(rules, before, last);
      assert inputs == init + [last];
      forall k | k in after.members ensures k.1 != "" && exists i :: i in inputs && IdOf(i).0 == k.0 {
        if k in before.members {
          var i :| i in init && IdOf(i).0 == k.0;
          assert i in inputs;
        } else {
          assert last in inputs && IdOf(last).0 == k.0;
        }
      }
    }
  }

  /** The system that a restart builds from its two snapshots. */
  function Restarted(snap: Snapshot, back: Membership.Members): System {
    System(Import(EmptyGraph, snap), back)
  }

  /**
   * A restart from snapshots taken after any run restores the system exactly when each user recorded so far belongs to
   * a nonempty tenant without a bar.
   */
  lemma RestartUnnoticedIff(rules: EventMapping.Rules, inputs: seq<Input>, s: System, snap: Snapshot,
                            users: Membership.Snapshot, back: Membership.Members)
    requires s == Run(rules, EmptySystem, inputs)
    requires ExportOf(s.graph, snap) && Membership.ExportOf(s.members, users) && Membership.ImportOf(users, back)
    ensures Restarted(snap, back) == s <==> forall k :: k in s.members ==> UsableTenant(k.0)
  {
    RunKeepsInvariants(rules, inputs);
    GraphRoundTrip(s.graph, snap);
    Membership.RoundTripIff(s.members, users, back);
    RecordedUsers(rules, inputs);
    assert forall k :: k in s.members ==> (Membership.Encodable(k) <==> UsableTenant(k.0));
  }

  /** Where the tenants of the inputs are usable, a run with a restart in it ends like the run without. */
  lemma RestartedRun(rules: EventMapping.Rules, first: seq<Input>, later: seq<Input>, snap: Snapshot,
                     users: Membership.Snapshot, back: Membership.Members)
    requires var s := Run(rules, EmptySystem, first);
             ExportOf(s.graph, snap) && Membership.ExportOf(s.members, users) && Membership.ImportOf(users, back)
    requires forall i :: i in first ==> UsableTenant(IdOf(i).0)
    ensures Run(rules, Restarted(snap, back), later) == Run(rules, EmptySystem, first + later)
  {
    RestartUnnoticedIff(rules, first, Run(rules, EmptySystem, first), snap, users, back);
    RecordedUsers(rules, first);
    RunAppend(rules, EmptySystem, first, later);
  }
}
