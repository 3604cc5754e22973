/** Who is in which group after a run, said from the inputs themselves. */
module MemberHistory {
  import opened EventMapping
  import opened GraphModel
  import opened Membership
  import opened Projection
  import opened Recorded
  import Text

  /** An event about people: by its category, or by its type as written. */
  predicate SpeaksOfPeople(ev: Event) {
    Text.EqIgnoreCase(ev.category, "identity") ||
    exists word | word in {"identity", "member"} :: Text.Contains(ev.eventType, word)
  }

  /** The type of the event, in any case, contains one of the words. */
  predicate TypeSays(ev: Event, words: set<string>) {
    exists word | word in words :: Text.Contains(Text.Lower(ev.eventType), word)
  }

  /** The acting user where there is a global id, else whom the attributes name; nobody when they name "". */
  function Subject(ev: Event): string {
    var named := TextOr(ev.attributes, ["member", "user"], ev.actor.globalUserId);
    if named != "" && ev.actor.globalUserId != "" then ev.actor.globalUserId else named
  }

  ghost predicate Concerns(ev: Event, tenant: string, user: string, group: string) {
    SpeaksOfPeople(ev) && ev.tenantId == tenant && user != "" && Subject(ev) == user &&
    group != "" && TextOr(ev.attributes, ["team", "group_name", "channel"], "") == group
  }

  ghost predicate Removes(i: Input, tenant: string, user: string, group: string) {
    match i
    case Ev(e) => Concerns(e, tenant, user, group) && TypeSays(e, {"remove", "left", "deleted"})
    case Rev(r) =>
      (r.tenantId, r.userId, r.groupId, r.changeType) == (tenant, user, group, "removed_from_group") &&
      user != "" && group != ""
  }

  ghost predicate Adds(i: Input, tenant: string, user: string, group: string) {
    match i
    case Ev(e) =>
      Concerns(e, tenant, user, group) && TypeSays(e, {"add", "join", "created"}) &&
      !TypeSays(e, {"remove", "left", "deleted"})
    case Rev(r) =>
      (r.tenantId, r.userId, r.groupId, r.changeType) == (tenant, user, group, "added_to_group") &&
      user != "" && group != ""
  }

  predicate IsIn(m: Members, tenant: string, user: string, group: string) {
    group in GroupsOf(m, tenant, user)
  }

  function MembersAfter(m: Members, i: Input): Members {
    match i
    case Ev(e) => if ConcernsMembership(e) then MembershipAfter(m, e) else m
    case Rev(r) => ChangeOrKeep(m, r.tenantId, r.userId, r.groupId, r.changeType)
  }

  /** One change: the group is gained or lost, every other user and group stays. */
  lemma ChangeMeans(m: Members, t: string, u: string, g: string, change: string, tenant: string, user: string,
      group: string)
    ensures var hit := (t, u, g) == (tenant, user, group) && u != "" && g != "";
            IsIn(ChangeOrKeep(m, t, u, g, change), tenant, user, group) <==>
              (hit && change == "added_to_group") ||
              (IsIn(m, tenant, user, group) && !(hit && change == "removed_from_group"))
    ensures (tenant, user) in ChangeOrKeep(m, t, u, g, change) <==>
              (tenant, user) in m || ((t, u) == (tenant, user) && u != "" && g != "" && change == "added_to_group")
  {
  }

  lemma VerbMeans(ev: Event)
    ensures var verb := MembershipVerb(Text.Lower(ev.eventType));
            (verb == "removed_from_group" <==> TypeSays(ev, {"remove", "left", "deleted"})) &&
            (verb == "added_to_group" <==>
              TypeSays(ev, {"add", "join", "created"}) && !TypeSays(ev, {"remove", "left", "deleted"})) &&
            verb in {"removed_from_group", "added_to_group", ""}
  {
    var et := Text.Lower(ev.eventType);
    assert Text.Contains(et, "remove") ==> TypeSays(ev, {"remove", "left", "deleted"});
    assert Text.Contains(et, "left") ==> TypeSays(ev, {"remove", "left", "deleted"});
    assert Text.Contains(et, "deleted") ==> TypeSays(ev, {"remove", "left", "deleted"});
    assert Text.Contains(et, "add") ==> TypeSays(ev, {"add", "join", "created"});
    assert Text.Contains(et, "join") ==> TypeSays(ev, {"add", "join", "created"});
    assert Text.Contains(et, "created") ==> TypeSays(ev, {"add", "join", "created"});
  }

  lemma PeopleMeans(ev: Event)
    ensures ConcernsMembership(ev) <==> SpeaksOfPeople(ev)
  {
    assert Text.Contains(ev.eventType, "identity") ==> SpeaksOfPeople(ev);
    assert Text.Contains(ev.eventType, "member") ==> SpeaksOfPeople(ev);
  }

  /** An event in which nobody and nothing is named changes nothing; every other one is one change. */
  lemma EventIsChange(m: Members, ev: Event)
    ensures var team := TextOr(ev.attributes, ["team", "group_name", "channel"], "");
            MembershipAfter(m, ev) ==
              ChangeOrKeep(m, ev.tenantId, Subject(ev), team, MembershipVerb(Text.Lower(ev.eventType)))
  {
  }

  lemma InputMeans(m: Members, i: Input, tenant: string, user: string, group: string)
    ensures IsIn(MembersAfter(m, i), tenant, user, group) <==>
              Adds(i, tenant, user, group) || (IsIn(m, tenant, user, group) && !Removes(i, tenant, user, group))
  {
    match i
    case Ev(e) =>
      var team := TextOr(e.attributes, ["team", "group_name", "channel"], "");
      PeopleMeans(e);
      VerbMeans(e);
      EventIsChange(m, e);
      ChangeMeans(m, e.tenantId, Subject(e), team, MembershipVerb(Text.Lower(e.eventType)), tenant, user, group);
    case Rev(r) => ChangeMeans(m, r.tenantId, r.userId, r.groupId, r.changeType, tenant, user, group);
  }

  lemma ProjectMembers(rules: Rules, s: System, i: Input)
    requires IdOf(i) !in s.graph.applied
    ensures Project(rules, s, i).members == MembersAfter(s.members, i)
  {
  }

  /** A recorded input puts the user into the group, and no later one takes the user out. */
  ghost predicate LastAdded(inputs: seq<Input>, tenant: string, user: string, group: string) {
    exists k :: AddedLast(inputs, k, tenant, user, group)
  }

  ghost predicate AddedLast(inputs: seq<Input>, k: int, tenant: string, user: string, group: string) {
    AddedAt(inputs, k, tenant, user, group) &&
    forall j :: k < j < |inputs| ==> !RemovedAt(inputs, j, tenant, user, group)
  }

  ghost predicate AddedAt(inputs: seq<Input>, k: int, tenant: string, user: string, group: string) {
    IsRecorded(inputs, k) && Adds(inputs[k], tenant, user, group)
  }

  ghost predicate RemovedAt(inputs: seq<Input>, k: int, tenant: string, user: string, group: string) {
    IsRecorded(inputs, k) && Removes(inputs[k], tenant, user, group)
  }

  lemma NeverBoth(i: Input, tenant: string, user: string, group: string)
    ensures !(Adds(i, tenant, user, group) && Removes(i, tenant, user, group))
  {
  }

  lemma SamePrefix(inputs: seq<Input>, k: int, tenant: string, user: string, group: string)
    requires inputs != [] && k < |inputs| - 1
    ensures AddedAt(inputs, k, tenant, user, group) <==> AddedAt(inputs[..|inputs| - 1], k, tenant, user, group)
    ensures RemovedAt(inputs, k, tenant, user, group) <==> RemovedAt(inputs[..|inputs| - 1], k, tenant, user, group)
  {
    RecordedPrefix(inputs, k);
  }

  lemma AddedBefore(inputs: seq<Input>, k: int, tenant: string, user: string, group: string)
    requires inputs != [] && k < |inputs| - 1
    ensures AddedLast(inputs, k, tenant, user, group) <==>
              AddedLast(inputs[..|inputs| - 1], k, tenant, user, group) &&
              !RemovedAt(inputs, |inputs| - 1, tenant, user, group)
  {
    var init, n := inputs[..|inputs| - 1], |inputs| - 1;
    SamePrefix(inputs, k, tenant, user, group);
    if AddedLast(inputs, k, tenant, user, group) {
      forall j | k < j < n ensures !RemovedAt(init, j, tenant, user, group) {
        SamePrefix(inputs, j, tenant, user, group);
      }
      assert !RemovedAt(inputs, n, tenant, user, group);
    } else if AddedLast(init, k, tenant, user, group) {
      var j :| k < j < |inputs| && RemovedAt(inputs, j, tenant, user, group);
      if j < n {
        SamePrefix(inputs, j, tenant, user, group);
      }
    }
  }

  lemma LastAddedStep(inputs: seq<Input>, tenant: string, user: string, group: string)
    requires inputs != []
    ensures var init, n := inputs[..|inputs| - 1], |inputs| - 1;
            LastAdded(inputs, tenant, user, group) <==>
              AddedAt(inputs, n, tenant, user, group) ||
              (LastAdded(init, tenant, user, group) && !RemovedAt(inputs, n, tenant, user, group))
  {
    var init, n := inputs[..|inputs| - 1], |inputs| - 1;
    if k :| AddedLast(inputs, k, tenant, user, group) {
      if k < n {
        AddedBefore(inputs, k, tenant, user, group);
      }
    }
    if k :| AddedLast(init, k, tenant, user, group) {
      AddedBefore(inputs, k, tenant, user, group);
    }
    if AddedAt(inputs, n, tenant, user, group) {
      assert AddedLast(inputs, n, tenant, user, group);
    }
  }

  /**
   * After any run a user is in a group exactly when the last recorded input about this user and this group puts the
   * user into it.
   */
  lemma {:induction false} InGroupIff(rules: Rules, inputs: seq<Input>, tenant: string, user: string, group: string)
    ensures IsIn(Run(rules, EmptySystem, inputs).members, tenant, user, group) <==>
              LastAdded(inputs, tenant, user, group)
  {
    if inputs != [] {
      var init, last := inputs[..|inputs| - 1], inputs[|inputs| - 1];
      InGroupIff(rules, init, tenant, user, group);
      LastRecordedIff(rules, inputs);
      LastAddedStep(inputs, tenant, user, group);
      var before := Run(rules, EmptySystem, init);
      if IsRecorded(inputs, |inputs| - 1) {
        ProjectMembers(rules, before, last);
        InputMeans(before.members, last, tenant, user, group);
        NeverBoth(last, tenant, user, group);
      }
    }
  }

  // --- Who is on record at all --------------------------------------------------------

  /** Some recorded input puts the user into some group. */
  ghost predicate EverAdded(inputs: seq<Input>, tenant: string, user: string) {
    exists k, group :: AddedAt(inputs, k, tenant, user, group)
  }

  lemma InputEnters(m: Members, i: Input, tenant: string, user: string)
    ensures (tenant, user) in MembersAfter(m, i) <==>
              (tenant, user) in m || exists group :: Adds(i, tenant, user, group)
  {
    match i
    case Ev(e) =>
      var team := TextOr(e.attributes, ["team", "group_name", "channel"], "");
      PeopleMeans(e);
      VerbMeans(e);
      EventIsChange(m, e);
      ChangeMeans(m, e.tenantId, Subject(e), team, MembershipVerb(Text.Lower(e.eventType)), tenant, user, team);
      assert Adds(i, tenant, user, team) <==> exists group :: Adds(i, tenant, user, group);
    case Rev(r) =>
      ChangeMeans(m, r.tenantId, r.userId, r.groupId, r.changeType, tenant, user, r.groupId);
      assert Adds(i, tenant, user, r.groupId) <==> exists group :: Adds(i, tenant, user, group);
  }

  lemma EverAddedStep(inputs: seq<Input>, tenant: string, user: string)
    requires inputs != []
    ensures var init, n := inputs[..|inputs| - 1], |inputs| - 1;
            EverAdded(inputs, tenant, user) <==>
              EverAdded(init, tenant, user) || exists group :: AddedAt(inputs, n, tenant, user, group)
  {
    var init, n := inputs[..|inputs| - 1], |inputs| - 1;
    if k, group :| AddedAt(init, k, tenant, user, group) {
      SamePrefix(inputs, k, tenant, user, group);
    }
    if k, group :| AddedAt(inputs, k, tenant, user, group) && k < n {
      SamePrefix(inputs, k, tenant, user, group);
    }
  }

  /** A user is on record exactly when some recorded input once put the user into a group; removals do not forget. */
  lemma {:induction false} OnRecordIff(rules: Rules, inputs: seq<Input>, tenant: string, user: string)
    ensures (tenant, user) in Run(rules, EmptySystem, inputs).members <==> EverAdded(inputs, tenant, user)
  {
    if inputs != [] {
      var init, last := inputs[..|inputs| - 1], inputs[|inputs| - 1];
      OnRecordIff(rules, init, tenant, user);
      LastRecordedIff(rules, inputs);
      EverAddedStep(inputs, tenant, user);
      var before := Run(rules, EmptySystem, init);
      if IsRecorded(inputs, |inputs| - 1) {
        ProjectMembers(rules, before, last);
        InputEnters(before.members, last, tenant, user);
        assert forall group :: AddedAt(inputs, |inputs| - 1, tenant, user, group) <==> Adds(last, tenant, user, group);
      }
    }
  }
}
