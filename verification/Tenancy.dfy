/** An interleaved run, seen from one tenant, is that tenant's own run. */
module Tenancy {
  import opened EventMapping
  import opened GraphModel
  import opened GraphOps
  import opened Membership
  import opened Projection
  import opened Sorting
  import Text

  function NodesOf(m: map<(string, string), Node>, t: string): map<(string, string), Node> {
    map k | k in m && k.0 == t :: m[k]
  }

  function EdgesOf(m: map<string, seq<Edge>>, t: string): map<string, seq<Edge>> {
    map k | k in m && k == t :: m[k]
  }

  function StatesOf(m: map<(string, string, string), EntityState>, t: string): map<(string, string, string),
      EntityState> {
    map k | k in m && k.0 == t :: m[k]
  }

  function MembersOf(m: Members, t: string): Members {
    map k | k in m && k.0 == t :: m[k]
  }

  /** The parts of a graph that belong to one tenant. */
  function GraphOf(g: Graph, t: string): Graph {
    Graph((set id | id in g.applied && id.0 == t), NodesOf(g.nodes, t), EdgesOf(g.edges, t), StatesOf(g.states, t))
  }

  /** The part of a system that belongs to one tenant. */
  function Restrict(s: System, t: string): System {
    System(GraphOf(s.graph, t), MembersOf(s.members, t))
  }

  function OfTenant(t: string): Input -> bool {
    (i: Input) => IdOf(i).0 == t
  }

  lemma {:induction false} PutNodesRestrict(m: map<(string, string), Node>, ns: seq<Node>, owner: string, t: string)
    requires forall n :: n in ns ==> n.tenantId == owner
    ensures NodesOf(PutNodes(m, ns), t) == if owner == t then PutNodes(NodesOf(m, t), ns) else NodesOf(m, t)
    decreases |ns|
  {
    if ns != [] {
      var m' := m[NodeKey(ns[0]) := ns[0]];
      assert ns[0] in ns;
      assert NodesOf(m', t) == if owner == t then NodesOf(m, t)[NodeKey(ns[0]) := ns[0]] else NodesOf(m, t);
      PutNodesRestrict(m', ns[1..], owner, t);
    }
  }

  lemma {:induction false} PutEdgesRestrict(m: map<string, seq<Edge>>, es: seq<Edge>, owner: string, t: string)
    requires forall e :: e in es ==> e.tenantId == owner
    ensures EdgesOf(PutEdges(m, es), t) == if owner == t then PutEdges(EdgesOf(m, t), es) else EdgesOf(m, t)
    decreases |es|
  {
    if es != [] {
      var m' := m[owner := PutEdge(ListFor(m, owner), es[0])];
      assert es[0] in es;
      assert EdgesOf(m', t) == if owner == t then EdgesOf(m, t)[owner := PutEdge(ListFor(EdgesOf(m, t), owner), es[0])]
          else EdgesOf(m, t);
      PutEdgesRestrict(m', es[1..], owner, t);
    }
  }

  lemma {:induction false} PutStatesRestrict(m: map<(string, string, string), EntityState>, ss: seq<EntityState>,
      owner: string, t: string)
    requires forall s :: s in ss ==> s.tenantId == owner
    ensures StatesOf(PutStates(m, ss), t) == if owner == t then PutStates(StatesOf(m, t), ss) else StatesOf(m, t)
    decreases |ss|
  {
    if ss != [] {
      var k := StateKey(ss[0]);
      var m' := m[k := MergeState(Lookup(m, k), ss[0])];
      assert ss[0] in ss;
      assert StatesOf(m', t) == if owner == t then StatesOf(m, t)[k := MergeState(Lookup(StatesOf(m, t), k), ss[0])]
          else StatesOf(m, t);
      PutStatesRestrict(m', ss[1..], owner, t);
    }
  }

  lemma ChangeRestrict(m: Members, owner: string, user: string, group: string, change: string, t: string)
    ensures MembersOf(ChangeOrKeep(m, owner, user, group, change), t)
         == if owner == t then ChangeOrKeep(MembersOf(m, t), owner, user, group, change) else MembersOf(m, t)
  {
  }

  lemma MembershipRestrict(m: Members, ev: Event, t: string)
    ensures MembersOf(MembershipAfter(m, ev), t) == if ev.tenantId == t then MembershipAfter(MembersOf(m, t), ev)
        else MembersOf(m, t)
  {
    var team := TextOr(ev.attributes, ["team", "group_name", "channel"], "");
    var member := TextOr(ev.attributes, ["member", "user"], ev.actor.globalUserId);
    ChangeRestrict(m, ev.tenantId, if ev.actor.globalUserId != "" then ev.actor.globalUserId else member, team,
                   MembershipVerb(Text.Lower(ev.eventType)), t);
  }

  lemma ApplyRestrict(g: Graph, m: Mutation, owner: string, t: string)
    requires OneTenant(m, owner)
    ensures GraphOf(Apply(g, m), t) == if owner == t then Apply(GraphOf(g, t), m) else GraphOf(g, t)
  {
    PutNodesRestrict(g.nodes, m.nodes, owner, t);
    PutEdgesRestrict(g.edges, m.edges, owner, t);
    PutStatesRestrict(g.states, m.states, owner, t);
  }

  lemma EffectRestrict(rules: Rules, s: System, i: Input, t: string)
    ensures Restrict(Effect(rules, s, i), t)
         == if IdOf(i).0 == t then Effect(rules, Restrict(s, t), i) else Restrict(s, t)
  {
    match i
    case Ev(ev) =>
      MapEventSound(rules, ev, RouteOf(ev));
      ApplyRestrict(s.graph, MapEvent(rules, ev), ev.tenantId, t);
      MembershipRestrict(s.members, ev, t);
    case Rev(r) => ChangeRestrict(s.members, r.tenantId, r.userId, r.groupId, r.changeType, t);
  }

  lemma MarkRestrict(s: System, i: Input, t: string)
    ensures Restrict(MarkInput(s, i), t) == if IdOf(i).0 == t then MarkInput(Restrict(s, t), i) else Restrict(s, t)
  {
    assert Restrict(MarkInput(s, i), t).graph.applied
        == if IdOf(i).0 == t then Restrict(s, t).graph.applied + {IdOf(i)} else Restrict(s, t).graph.applied;
  }

  lemma ProjectRestrict(rules: Rules, s: System, i: Input, t: string)
    ensures Restrict(Project(rules, s, i), t)
         == if IdOf(i).0 == t then Project(rules, Restrict(s, t), i) else Restrict(s, t)
  {
    if IdOf(i) !in s.graph.applied {
      MarkRestrict(s, i, t);
      EffectRestrict(rules, MarkInput(s, i), i, t);
    }
  }

  lemma FilterLast(inputs: seq<Input>, t: string)
    requires inputs != []
    ensures var init, last := inputs[..|inputs| - 1], inputs[|inputs| - 1];
            Filter(inputs, OfTenant(t)) == if IdOf(last).0 == t then Filter(init, OfTenant(t)) + [last]
                else Filter(init, OfTenant(t))
  {
    var init, last := inputs[..|inputs| - 1], inputs[|inputs| - 1];
    assert inputs == init + [last];
    FilterAppend(init, [last], OfTenant(t));
    assert Filter([last], OfTenant(t)) == if IdOf(last).0 == t then [last] else [];
  }

  /** What a tenant ends up with does not depend on what other tenants did in between. */
  lemma {:induction false} RunRestrict(rules: Rules, s: System, inputs: seq<Input>, t: string)
    ensures Restrict(Run(rules, s, inputs), t) == Run(rules, Restrict(s, t), Filter(inputs, OfTenant(t)))
  {
    if inputs != [] {
      var init, last := inputs[..|inputs| - 1], inputs[|inputs| - 1];
      RunRestrict(rules, s, init, t);
      ProjectRestrict(rules, Run(rules, s, init), last, t);
      FilterLast(inputs, t);
      RunLast(rules, Restrict(s, t), Filter(init, OfTenant(t)), last);
    }
  }
}
