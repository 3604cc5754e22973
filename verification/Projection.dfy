/** Applies canonical events and access revocations to the graph and the group membership, each id once. */
module Projection {
  import opened EventMapping
  import opened GraphModel
  import opened GraphOps
  import opened GraphStore
  import opened Membership
  import Text

  datatype Revocation = Revocation(eventId: string, tenantId: string, userId: string, groupId: string,
      changeType: string)

  datatype Input = Ev(event: Event) | Rev(revocation: Revocation)

  datatype Status = Applied | Duplicate | Skipped

  datatype Outcome = Outcome(eventId: string, tenantId: string, status: Status, nodes: nat, edges: nat)

  /** The state behind the engine: graph store and membership store. */
  datatype System = System(graph: Graph, members: Members)

  const EmptySystem := System(EmptyGraph, map[])

  function IdOf(i: Input): (string, string) {
    match i
    case Ev(e) => (e.tenantId, e.eventId)
    case Rev(r) => (r.tenantId, r.eventId)
  }

  /** Events that may also change membership; unlike the mapping, this test is case-sensitive on the type. */
  predicate ConcernsMembership(ev: Event) {
    Text.EqIgnoreCase(ev.category, "identity") || Text.Contains(ev.eventType, "identity") ||
        Text.Contains(ev.eventType, "member")
  }

  function MembershipVerb(et: string): string {
    if Leaves(et) then "removed_from_group"
    else if Text.Contains(et, "add") || Text.Contains(et, "join") || Text.Contains(et, "created") then "added_to_group"
    else ""
  }

  function ChangeOrKeep(m: Members, tenant: string, user: string, group: string, change: string): Members {
    match Change(m, tenant, user, group, change)
    case Ok(m') => m'
    case Err(_) => m
  }

  function MembershipAfter(m: Members, ev: Event): Members {
    var team := TextOr(ev.attributes, ["team", "group_name", "channel"], "");
    var member := TextOr(ev.attributes, ["member", "user"], ev.actor.globalUserId);
    var verb := MembershipVerb(Text.Lower(ev.eventType));
    if team == "" || member == "" || verb == "" then m
    else ChangeOrKeep(m, ev.tenantId, if ev.actor.globalUserId != "" then ev.actor.globalUserId else member, team, verb)
  }

  predicate IsEmpty(m: Mutation) {
    m.nodes == [] && m.edges == [] && m.states == []
  }

  /** Everything after the id has been recorded. */
  function Effect(rules: Rules, s: System, i: Input): System {
    match i
    case Ev(e) =>
      System(Apply(s.graph, MapEvent(rules, e)), if ConcernsMembership(e) then MembershipAfter(s.members, e)
          else s.members)
    case Rev(r) => s.(members := ChangeOrKeep(s.members, r.tenantId, r.userId, r.groupId, r.changeType))
  }

  function MarkInput(s: System, i: Input): System {
    s.(graph := Mark(s.graph, IdOf(i).0, IdOf(i).1))
  }

  function Project(rules: Rules, s: System, i: Input): System {
    if IdOf(i) in s.graph.applied then s else Effect(rules, MarkInput(s, i), i)
  }

  /** A run of the engine over a sequence of inputs. */
  function Run(rules: Rules, s: System, inputs: seq<Input>): System {
    if inputs == [] then s else Project(rules, Run(rules, s, inputs[..|inputs| - 1]), inputs[|inputs| - 1])
  }

  lemma RunLast(rules: Rules, s: System, init: seq<Input>, last: Input)
    ensures Run(rules, s, init + [last]) == Project(rules, Run(rules, s, init), last)
  {
    assert (init + [last])[..|init|] == init;
  }

  lemma RunOne(rules: Rules, s: System, i: Input)
    ensures Run(rules, s, [i]) == Project(rules, s, i)
  {
    var none: seq<Input> := [];
    RunLast(rules, s, none, i);
    assert none + [i] == [i];
  }

  lemma {:induction false} RunAppend(rules: Rules, s: System, a: seq<Input>, b: seq<Input>)
    ensures Run(rules, s, a + b) == Run(rules, Run(rules, s, a), b)
  {
    if b == [] {
      assert a + b == a;
    } else {
      RunAppend(rules, s, a, b[..|b| - 1]);
      assert (a + b)[..|a + b| - 1] == a + b[..|b| - 1];
    }
  }

  class ProjectEngine {
    const store: InMemoryGraphStore
    const membership: InMemoryMembership
    const rules: Rules

    constructor (store: InMemoryGraphStore, membership: InMemoryMembership, rules: Rules)
      ensures this.store == store && this.membership == membership && this.rules == rules
    {
      this.store, this.membership, this.rules := store, membership, rules;
    }

    function State(): System
      reads store, membership
    {
      System(store.Contents(), membership.users)
    }

    method ProjectEvent(ev: Event) returns (o: Outcome)
      requires WellFormed(store.Contents())
      modifies store, membership
      ensures State() == Project(rules, old(State()), Ev(ev)) && WellFormed(store.Contents())
      ensures o.eventId == ev.eventId && o.tenantId == ev.tenantId
      ensures o.status == if IdOf(Ev(ev)) in old(store.applied) then Duplicate
                          else if IsEmpty(MapEvent(rules, ev)) then Skipped else Applied
      ensures (o.nodes, o.edges) == if o.status == Applied
          then (|MapEvent(rules, ev).nodes|, |MapEvent(rules, ev).edges|) else (0, 0)
    {
      var first := store.MarkEventApplied(ev.tenantId, ev.eventId);
      if !first {
        return Outcome(ev.eventId, ev.tenantId, Duplicate, 0, 0);
      }
      if ConcernsMembership(ev) {
        TryMembership(ev);
      }
      var m := MapEvent(rules, ev);
      if IsEmpty(m) {
        return Outcome(ev.eventId, ev.tenantId, Skipped, 0, 0);
      }
      store.ApplyMutation(m);
      return Outcome(ev.eventId, ev.tenantId, Applied, |m.nodes|, |m.edges|);
    }

    /** Membership side channel; a refused change is ignored. */
    method TryMembership(ev: Event)
      modifies membership
      ensures membership.users == MembershipAfter(old(membership.users), ev)
    {
      var team := TextOr(ev.attributes, ["team", "group_name", "channel"], "");
      var member := TextOr(ev.attributes, ["member", "user"], ev.actor.globalUserId);
      if team == "" || member == "" {
        return;
      }
      var verb := MembershipVerb(Text.Lower(ev.eventType));
      if verb == "" {
        return;
      }
      var uid := if ev.actor.globalUserId != "" then ev.actor.globalUserId else member;
      var _ := membership.ApplyChange(ev.tenantId, uid, team, verb);
    }

    /** A revocation that fails validation stays recorded as applied. */
    method ProjectAclRevocation(r: Revocation) returns (o: Option<Outcome>)
      requires WellFormed(store.Contents())
      modifies store, membership
      ensures State() == Project(rules, old(State()), Rev(r)) && WellFormed(store.Contents())
      ensures o.None? <==>
                (IdOf(Rev(r)) !in old(store.applied) &&
                 Change(old(membership.users), r.tenantId, r.userId, r.groupId, r.changeType).Err?)
      ensures o.Some? ==>
                o.value == Outcome(r.eventId, r.tenantId, if IdOf(Rev(r)) in old(store.applied) then Duplicate
                    else Applied, 0, 0)
    {
      var first := store.MarkEventApplied(r.tenantId, r.eventId);
      if !first {
        return Some(Outcome(r.eventId, r.tenantId, Duplicate, 0, 0));
      }
      var ok := membership.ApplyChange(r.tenantId, r.userId, r.groupId, r.changeType);
      if !ok {
        return None;
      }
      return Some(Outcome(r.eventId, r.tenantId, Applied, 0, 0));
    }
  }

  // --- Invariants of every run ------------------------------------------------------

  /** Every edge but a BLOCKS edge has both ends in the graph. */
  ghost predicate NoDangling(g: Graph) {
    forall t, e :: t in g.edges && e in g.edges[t] && e.edgeType != "BLOCKS" ==>
      (t, e.fromId) in g.nodes && (t, e.toId) in g.nodes
  }

  lemma ApplyKeepsEdgesAnchored(g: Graph, m: Mutation, tenant: string)
    requires NoDangling(g) && OneTenant(m, tenant) && Anchored(m)
    ensures NoDangling(Apply(g, m))
  {
    var g' := Apply(g, m);
    PutNodesKeys(g.nodes, m.nodes);
    forall t, e | t in g'.edges && e in g'.edges[t] && e.edgeType != "BLOCKS"
      ensures (t, e.fromId) in g'.nodes && (t, e.toId) in g'.nodes
    {
      PutEdgesFrom(g.edges, m.edges, t, e);
      if !(t in g.edges && e in g.edges[t]) {
        var a :| a in m.nodes && a.nodeId == e.fromId;
        var b :| b in m.nodes && b.nodeId == e.toId;
        assert NodeKey(a) in g'.nodes && NodeKey(b) in g'.nodes;
      }
    }
  }

  /** Every run keeps the store well formed and leaves no edge dangling, BLOCKS edges excepted. */
  lemma {:induction false} RunKeepsInvariants(rules: Rules, inputs: seq<Input>)
    ensures var g := Run(rules, EmptySystem, inputs).graph;
            WellFormed(g) && NoDangling(g)
  {
    if inputs != [] {
      var before := Run(rules, EmptySystem, inputs[..|inputs| - 1]);
      RunKeepsInvariants(rules, inputs[..|inputs| - 1]);
      var i := inputs[|inputs| - 1];
      if IdOf(i) !in before.graph.applied && i.Ev? {
        var m := MapEvent(rules, i.event);
        var marked := MarkInput(before, i).graph;
        MapEventSound(rules, i.event, RouteOf(i.event));
        ApplyKeepsWellFormed(marked, m);
        ApplyKeepsEdgesAnchored(marked, m, i.event.tenantId);
      }
    }
  }

  lemma ProjectRecordsId(rules: Rules, s: System, i: Input)
    ensures Project(rules, s, i).graph.applied == s.graph.applied + {IdOf(i)}
  {
  }

  ghost predicate Brings(inputs: seq<Input>, id: (string, string)) {
    exists i :: i in inputs && IdOf(i) == id
  }

  lemma BringsLast(inputs: seq<Input>, id: (string, string))
    requires inputs != []
    ensures Brings(inputs, id) <==> Brings(inputs[..|inputs| - 1], id) || IdOf(inputs[|inputs| - 1]) == id
  {
    assert inputs == inputs[..|inputs| - 1] + [inputs[|inputs| - 1]];
    assert inputs[|inputs| - 1] in inputs;
  }

  lemma {:induction false} RunRecords(rules: Rules, inputs: seq<Input>, id: (string, string))
    ensures id in Run(rules, EmptySystem, inputs).graph.applied <==> Brings(inputs, id)
  {
    if inputs != [] {
      RunRecords(rules, inputs[..|inputs| - 1], id);
      BringsLast(inputs, id);
      ProjectRecordsId(rules, Run(rules, EmptySystem, inputs[..|inputs| - 1]), inputs[|inputs| - 1]);
    }
  }

  /** The recorded ids are exactly those of the inputs seen. */
  lemma AppliedIds(rules: Rules, inputs: seq<Input>, id: (string, string))
    ensures id in Run(rules, EmptySystem, inputs).graph.applied <==> exists i :: i in inputs && IdOf(i) == id
  {
    RunRecords(rules, inputs, id);
  }

}
