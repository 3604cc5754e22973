/** From projected events to conflicts: an attached intent counts as a claim of its owner on the work item. */
module IntentFlow {
  import opened Conflicts
  import opened GraphModel
  import opened Signals
  import EventMapping
  import Text

  /** The scene shows everything the mutation wrote. */
  ghost predicate Shows(d: Scene, m: Mutation) {
    (forall n :: n in m.nodes ==> n in d.nodes) && forall e :: e in m.edges ==> e in d.edges
  }

  /** An intent attached to work is found by the detector, with its owner and its type. */
  lemma AttachedIntentIsClaim(rules: EventMapping.Rules, ev: EventMapping.Event, about: Node, owner: string, d: Scene)
    requires !Text.EqIgnoreCase(about.nodeType, "Commit") && d.asOf >= ev.timestamp
    requires Shows(d, EventMapping.AttachIntent(rules, ev, about, owner))
    ensures var n := EventMapping.AttachIntent(rules, ev, about, owner).nodes[0];
            Claims(d, n, about.nodeId) && ByEdge(d, d.edges, n, about.nodeId) &&
            OwnerOf(n) == Some(owner) && IntentTypeOf(n) == rules(ev.attributes).intentType
  {
    var m := EventMapping.AttachIntent(rules, ev, about, owner);
    var n, e := m.nodes[0], m.edges[1];
    assert n in m.nodes && e in m.edges;
    assert Links(d, e, n, about.nodeId);
  }

  /** Two people whose intents are attached to one work item are a conflict, opposite ones a contradiction. */
  lemma TwoOwnersConflict(rules: EventMapping.Rules, one: EventMapping.Event, two: EventMapping.Event, about: Node,
      a: string, b: string, d: Scene)
    requires !Text.EqIgnoreCase(about.nodeType, "Commit") && a != b
    requires d.asOf >= one.timestamp && d.asOf >= two.timestamp
    requires Shows(d, EventMapping.AttachIntent(rules, one, about, a)) &&
        Shows(d, EventMapping.AttachIntent(rules, two, about, b))
    ensures IsConflict(d, Owners(about.nodeId))
    ensures rules(one.attributes).intentType == "SHIP" && rules(two.attributes).intentType == "FREEZE" ==>
              Contradictory(d, about.nodeId)
  {
    AttachedIntentIsClaim(rules, one, about, a, d);
    AttachedIntentIsClaim(rules, two, about, b, d);
    assert OwnedBy(d, about.nodeId, a) && OwnedBy(d, about.nodeId, b);
  }
}
