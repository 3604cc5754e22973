/** Which of the states that arrive for a key is kept, by either rule, whatever the values are. */
module StateHistory {
  import opened Convergence
  import opened EventMapping
  import opened GraphModel
  import opened GraphOps
  import opened Projection
  import opened Recorded

  /** What arrives for one key, in order; nothing where something else arrives. */
  type Arrivals = seq<Option<EntityState>>

  /** The arrival at `n` holds out against the one at `j`. */
  ghost predicate HoldsOut(cs: Arrivals, n: int, j: int)
    requires 0 <= n < |cs| && 0 <= j < |cs| && cs[n].Some? && cs[j].Some?
  {
    var s, x := cs[n].value, cs[j].value;
    x.asOf < s.asOf ||
    (x.asOf == s.asOf && if j <= n then !Outranks(x.stateValue, s.stateValue) else Outranks(s.stateValue, x.stateValue))
  }

  /** No other arrival is later; at equal times none ranks higher, and of those of one rank this is the last. */
  ghost predicate Wins(cs: Arrivals, n: int) {
    0 <= n < |cs| && cs[n].Some? && forall j :: 0 <= j < |cs| && cs[j].Some? ==> HoldsOut(cs, n, j)
  }

  /** No two arrivals come from one event. */
  ghost predicate DistinctEvents(cs: Arrivals) {
    forall i, j :: 0 <= i < j < |cs| && cs[i].Some? && cs[j].Some? ==> cs[i].value.eventId != cs[j].value.eventId
  }

  lemma WinnerIsUnique(cs: Arrivals, n: int, m: int)
    requires Wins(cs, n) && Wins(cs, m)
    ensures n == m
  {
    assert HoldsOut(cs, n, m) && HoldsOut(cs, m, n);
  }

  ghost function FoldedBy(rule: Rule, cs: Arrivals): Option<EntityState> {
    if cs == [] then None
    else
      var before, s := FoldedBy(rule, cs[..|cs| - 1]), cs[|cs| - 1];
      if s.None? then before else Some(Merge(rule, before, s.value))
  }

  ghost predicate WonBy(cs: Arrivals, s: EntityState) {
    exists n :: Wins(cs, n) && cs[n] == Some(s)
  }

  lemma {:induction false} FoldedWins(cs: Arrivals)
    requires DistinctEvents(cs)
    ensures FoldedBy(InMemory, cs).None? <==> forall i :: 0 <= i < |cs| ==> cs[i].None?
    ensures FoldedBy(InMemory, cs).Some? ==> WonBy(cs, FoldedBy(InMemory, cs).value)
  {
    if cs != [] {
      var init, last := cs[..|cs| - 1], cs[|cs| - 1];
      FoldedWins(init);
      if FoldedBy(InMemory, init).Some? {
        var n :| Wins(init, n) && init[n] == Some(FoldedBy(InMemory, init).value);
        OneMoreArrival(cs, n);
      } else if last.Some? {
        assert Wins(cs, |cs| - 1);
      }
    }
  }

  lemma OneMoreArrival(cs: Arrivals, n: int)
    requires cs != [] && DistinctEvents(cs) && Wins(cs[..|cs| - 1], n)
    ensures var x, s := cs[n].value, cs[|cs| - 1];
            WonBy(cs, if s.None? then x else MergeState(Some(x), s.value))
  {
    var init, last := cs[..|cs| - 1], |cs| - 1;
    forall j | 0 <= j < last && cs[j].Some?
      ensures HoldsOut(init, n, j) && (HoldsOut(cs, n, j) <==> HoldsOut(init, n, j))
    {
      assert init[j] == cs[j];
    }
    if cs[last].None? {
      assert Wins(cs, n);
    } else if MergeState(Some(cs[n].value), cs[last].value) == cs[last].value {
      assert Wins(cs, last);
    } else {
      assert Wins(cs, n);
    }
  }

  // A list of states put into a map

  ghost function ArrivalsFor(ss: seq<EntityState>, k: Key): Arrivals {
    seq(|ss|, i requires 0 <= i < |ss| => if StateKey(ss[i]) == k then Some(ss[i]) else None)
  }

  lemma {:induction false} PutStatesLast(m: map<Key, EntityState>, init: seq<EntityState>, s: EntityState)
    ensures var before := PutStates(m, init);
            PutStates(m, init + [s]) == before[StateKey(s) := MergeState(Lookup(before, StateKey(s)), s)]
    decreases |init|
  {
    if init == [] {
      assert init + [s] == [s] && [s][1..] == [];
    } else {
      assert (init + [s])[1..] == init[1..] + [s];
      PutStatesLast(m[StateKey(init[0]) := MergeState(Lookup(m, StateKey(init[0])), init[0])], init[1..], s);
    }
  }

  lemma {:induction false} PutStatesFolds(m: map<Key, EntityState>, ss: seq<EntityState>, k: Key)
    ensures Lookup(PutStates(m, ss), k) == FoldedBy(InMemory, [Lookup(m, k)] + ArrivalsFor(ss, k))
  {
    var cs := [Lookup(m, k)] + ArrivalsFor(ss, k);
    if ss == [] {
      assert cs == [Lookup(m, k)] && cs[..0] == [];
    } else {
      var init, s := ss[..|ss| - 1], ss[|ss| - 1];
      assert ss == init + [s];
      PutStatesLast(m, init, s);
      PutStatesFolds(m, init, k);
      assert cs[..|ss|] == [Lookup(m, k)] + ArrivalsFor(init, k);
    }
  }

  /**
   * After a list of states from different events, the state under a key is the latest of what was there and what
   * arrived; at equal times the higher ranking one, else the last.
   */
  lemma PutStatesKeepsWinner(m: map<Key, EntityState>, ss: seq<EntityState>, k: Key)
    requires DistinctEvents([Lookup(m, k)] + ArrivalsFor(ss, k))
    ensures var cs, after := [Lookup(m, k)] + ArrivalsFor(ss, k), PutStates(m, ss);
            (k in after <==> exists n :: 0 <= n < |cs| && cs[n].Some?) && (k in after ==> WonBy(cs, after[k]))
  {
    PutStatesFolds(m, ss, k);
    FoldedWins([Lookup(m, k)] + ArrivalsFor(ss, k));
  }

  ghost predicate Newest(cs: Arrivals, s: EntityState) {
    Some(s) in cs && forall x :: Some(x) in cs ==> x.asOf <= s.asOf
  }

  lemma {:induction false} FoldedIsNewest(cs: Arrivals)
    ensures FoldedBy(InMemory, cs).Some? ==> Newest(cs, FoldedBy(InMemory, cs).value)
    ensures FoldedBy(InMemory, cs).None? ==> forall x :: Some(x) !in cs
  {
    if cs != [] {
      FoldedIsNewest(cs[..|cs| - 1]);
      assert cs == cs[..|cs| - 1] + [cs[|cs| - 1]];
    }
  }

  /** Whatever events the states come from, the one kept is one of them and none is later. */
  lemma PutStatesKeepsNewest(m: map<Key, EntityState>, ss: seq<EntityState>, k: Key)
    ensures var cs, after := [Lookup(m, k)] + ArrivalsFor(ss, k), PutStates(m, ss);
            (k in after <==> exists x :: Some(x) in cs) && (k in after ==> Newest(cs, after[k]))
  {
    PutStatesFolds(m, ss, k);
    FoldedIsNewest([Lookup(m, k)] + ArrivalsFor(ss, k));
  }

  // States over a run

  function StateFor(i: Input, k: Key): Option<EntityState> {
    if i.Rev? then None
    else
      var ss := StatesFor(i.event, RouteOf(i.event));
      if ss != [] && StateKey(ss[0]) == k then Some(ss[0]) else None
  }

  /** What the recorded inputs say about one key. */
  ghost function StatesOver(inputs: seq<Input>, k: Key): Arrivals {
    seq(|inputs|, i requires 0 <= i < |inputs| => if IsRecorded(inputs, i) then StateFor(inputs[i], k) else None)
  }

  lemma StatesOverPrefix(inputs: seq<Input>, k: Key)
    requires inputs != []
    ensures StatesOver(inputs, k)[..|inputs| - 1] == StatesOver(inputs[..|inputs| - 1], k)
  {
    forall i | 0 <= i < |inputs| - 1 ensures StatesOver(inputs, k)[i] == StatesOver(inputs[..|inputs| - 1], k)[i] {
      RecordedPrefix(inputs, i);
    }
  }

  lemma LedgerRecorded(rule: Rule, inputs: seq<Input>)
    requires inputs != []
    ensures IsRecorded(inputs, |inputs| - 1) <==>
              IdOf(inputs[|inputs| - 1]) !in RunLedger(rule, inputs[..|inputs| - 1]).applied
  {
    var init, last := inputs[..|inputs| - 1], inputs[|inputs| - 1];
    LedgerIds(rule, init, IdOf(last));
    if !IsRecorded(inputs, |inputs| - 1) {
      var j :| 0 <= j < |init| && IdOf(inputs[j]) == IdOf(last);
      assert init[j] in init;
    }
  }

  lemma RecordOne(rule: Rule, l: Ledger, i: Input, k: Key)
    requires IdOf(i) !in l.applied
    ensures Lookup(Record(rule, l, i).states, k) == if StateFor(i, k).None? then Lookup(l.states, k)
        else Some(Merge(rule, Lookup(l.states, k), StateFor(i, k).value))
  {
    if i.Ev? {
      var ss := StatesFor(i.event, RouteOf(i.event));
      if ss != [] {
        PutOne(rule, l.states, ss[0]);
        assert ss == [ss[0]];
      }
    }
  }

  lemma LedgerLast(rule: Rule, inputs: seq<Input>, k: Key)
    requires inputs != []
    ensures var before := Lookup(RunLedger(rule, inputs[..|inputs| - 1]).states, k);
            var s := StatesOver(inputs, k)[|inputs| - 1];
            Lookup(RunLedger(rule, inputs).states, k) == if s.None? then before else Some(Merge(rule, before, s.value))
  {
    LedgerRecorded(rule, inputs);
    if IsRecorded(inputs, |inputs| - 1) {
      RecordOne(rule, RunLedger(rule, inputs[..|inputs| - 1]), inputs[|inputs| - 1], k);
    }
  }

  lemma {:induction false} LedgerFolds(rule: Rule, inputs: seq<Input>, k: Key)
    ensures Lookup(RunLedger(rule, inputs).states, k) == FoldedBy(rule, StatesOver(inputs, k))
  {
    if inputs != [] {
      LedgerFolds(rule, inputs[..|inputs| - 1], k);
      StatesOverPrefix(inputs, k);
      LedgerLast(rule, inputs, k);
    }
  }

  lemma RunFoldsStates(rules: Rules, inputs: seq<Input>, k: Key)
    ensures Lookup(Run(rules, EmptySystem, inputs).graph.states, k) == FoldedBy(InMemory, StatesOver(inputs, k))
  {
    RunMatchesLedger(rules, inputs);
    LedgerFolds(InMemory, inputs, k);
  }

  lemma StateOfEvent(i: Input, k: Key)
    requires StateFor(i, k).Some?
    ensures i.Ev? && StateFor(i, k).value.eventId == i.event.eventId && i.event.tenantId == k.0
  {
  }

  lemma DistinctOver(inputs: seq<Input>, k: Key)
    ensures DistinctEvents(StatesOver(inputs, k))
  {
    var cs := StatesOver(inputs, k);
    forall i, j | 0 <= i < j < |cs| && cs[i].Some? && cs[j].Some? ensures cs[i].value.eventId != cs[j].value.eventId {
      StateOfEvent(inputs[i], k);
      StateOfEvent(inputs[j], k);
      assert IdOf(inputs[i]) != IdOf(inputs[j]);
    }
  }

  /**
   * After any run, for every key and every value: the state is that of the recorded input with the latest time, of
   * those the highest ranking, of those the last; and there is a state as soon as one input writes one.
   */
  lemma StateIsWinner(rules: Rules, inputs: seq<Input>, k: Key)
    ensures var cs, states := StatesOver(inputs, k), Run(rules, EmptySystem, inputs).graph.states;
            (k in states <==> exists n :: 0 <= n < |cs| && cs[n].Some?) && (k in states ==> WonBy(cs, states[k]))
  {
    RunFoldsStates(rules, inputs, k);
    DistinctOver(inputs, k);
    FoldedWins(StatesOver(inputs, k));
  }

  // The status of an issue

  /** The recorded issue event at `n` is about this issue. */
  ghost predicate TellsOfIssue(inputs: seq<Input>, n: int, tenant: string, resource: string) {
    IsRecorded(inputs, n) && inputs[n].Ev? && RouteOf(inputs[n].event) == Issue &&
    inputs[n].event.tenantId == tenant && IssueResource(inputs[n].event) == resource
  }

  /** The status an event names: the text under `status`, or under `state` when there is no `status`. */
  ghost predicate NamesStatus(attrs: Json, v: string) {
    match (attrs.Get("status"), attrs.Get("state"))
    case (Some(JStr(x)), _) => v == x
    case (None, Some(JStr(x))) => v == x
    case _ => v == "unknown"
  }

  ghost predicate IsStatusOf(s: EntityState, ev: Event) {
    s.tenantId == ev.tenantId && s.nodeId == "issue:" + IssueResource(ev) && s.stateKey == "status" &&
    NamesStatus(ev.attributes, s.stateValue) && s.asOf == ev.timestamp && s.eventId == ev.eventId &&
    s.isPrivate == ev.acl.isPrivate && s.allowedGroups == ev.acl.allowedGroups
  }

  lemma StatusStateIs(ev: Event)
    ensures IsStatusOf(StatusState(ev), ev)
  {
    var attrs := ev.attributes;
    assert ["status", "state"][1..] == ["state"] && ["state"][1..] == [];
    assert FirstPresent(attrs, ["state"]) == attrs.Get("state");
  }

  lemma StatusFor(inputs: seq<Input>, n: int, tenant: string, resource: string)
    requires 0 <= n < |inputs|
    ensures var c := StatesOver(inputs, (tenant, "issue:" + resource, "status"))[n];
            (c.Some? <==> TellsOfIssue(inputs, n, tenant, resource)) &&
            (c.Some? ==> IsStatusOf(c.value, inputs[n].event))
  {
    if inputs[n].Ev? {
      var ev := inputs[n].event;
      StatusStateIs(ev);
      assert ("issue:" + IssueResource(ev))[|"issue:"|..] == IssueResource(ev);
      assert ("issue:" + resource)[|"issue:"|..] == resource;
    }
  }

  /** The events at `j` do not take the status away from the one at `n`, which named `v`. */
  ghost predicate KeepsStatus(inputs: seq<Input>, n: int, v: string, j: int)
    requires 0 <= n < |inputs| && 0 <= j < |inputs| && inputs[n].Ev? && inputs[j].Ev?
  {
    var a, b := inputs[n].event, inputs[j].event;
    b.timestamp < a.timestamp ||
    (b.timestamp == a.timestamp && (j > n ==> forall w :: NamesStatus(b.attributes, w) ==> Outranks(v, w)))
  }

  /** The status is the one named at `n`, and no other recorded event of the issue takes it away. */
  ghost predicate StatusStands(inputs: seq<Input>, n: int, tenant: string, resource: string, s: EntityState) {
    TellsOfIssue(inputs, n, tenant, resource) && IsStatusOf(s, inputs[n].event) &&
    forall j :: TellsOfIssue(inputs, j, tenant, resource) ==> KeepsStatus(inputs, n, s.stateValue, j)
  }

  lemma WinnerStands(inputs: seq<Input>, n: int, tenant: string, resource: string)
    requires Wins(StatesOver(inputs, (tenant, "issue:" + resource, "status")), n)
    ensures StatusStands(inputs, n, tenant, resource,
        StatesOver(inputs, (tenant, "issue:" + resource, "status"))[n].value)
  {
    var cs := StatesOver(inputs, (tenant, "issue:" + resource, "status"));
    StatusFor(inputs, n, tenant, resource);
    forall j | TellsOfIssue(inputs, j, tenant, resource)
      ensures KeepsStatus(inputs, n, cs[n].value.stateValue, j)
    {
      StatusFor(inputs, j, tenant, resource);
      assert HoldsOut(cs, n, j);
      StatusIsNamed(inputs[j].event, cs[j].value.stateValue);
    }
  }

  lemma StatusIsNamed(ev: Event, v: string)
    requires NamesStatus(ev.attributes, v)
    ensures forall w :: NamesStatus(ev.attributes, w) ==> w == v
  {
  }

  /** After any run an issue has the status of its latest recorded event; at one instant, of the last not outranked. */
  lemma IssueStatusIsLatest(rules: Rules, inputs: seq<Input>, tenant: string, resource: string)
    ensures var k, states := (tenant, "issue:" + resource, "status"), Run(rules, EmptySystem, inputs).graph.states;
            (k in states <==> exists n :: TellsOfIssue(inputs, n, tenant, resource)) &&
            (k in states ==> exists n :: StatusStands(inputs, n, tenant, resource, states[k]))
  {
    var k := (tenant, "issue:" + resource, "status");
    var cs := StatesOver(inputs, k);
    StateIsWinner(rules, inputs, k);
    forall n | 0 <= n < |inputs| ensures cs[n].Some? <==> TellsOfIssue(inputs, n, tenant, resource) {
      StatusFor(inputs, n, tenant, resource);
    }
    if k in Run(rules, EmptySystem, inputs).graph.states {
      var n :| Wins(cs, n) && cs[n] == Some(Run(rules, EmptySystem, inputs).graph.states[k]);
      WinnerStands(inputs, n, tenant, resource);
    }
  }

  // --- What the database keeps --------------------------------------------------------

  predicate Closing(v: string) {
    v == "CLOSED" || v == "MERGED"
  }

  ghost predicate ClosesAt(cs: Arrivals, t: int, n: int) {
    0 <= n < |cs| && cs[n].Some? && cs[n].value.asOf == t && Closing(cs[n].value.stateValue)
  }

  /** The last closing value of this time is the one of `s`. */
  ghost predicate ClosedLast(cs: Arrivals, s: EntityState) {
    exists n :: LastClose(cs, s, n)
  }

  ghost predicate LastClose(cs: Arrivals, s: EntityState, n: int) {
    ClosesAt(cs, s.asOf, n) && cs[n].value.stateValue == s.stateValue && forall j :: n < j ==> !ClosesAt(cs, s.asOf, j)
  }

  /** Nothing closes at this time, and `s` was the first to arrive with it. */
  ghost predicate CameFirst(cs: Arrivals, s: EntityState) {
    (forall j :: !ClosesAt(cs, s.asOf, j)) &&
    exists n ::
      0 <= n < |cs| && cs[n] == Some(s) && forall j :: 0 <= j < n && cs[j].Some? ==> cs[j].value.asOf != s.asOf
  }

  ghost predicate CrdbKept(cs: Arrivals, s: EntityState) {
    Newest(cs, s) && (ClosedLast(cs, s) || CameFirst(cs, s))
  }

  lemma NothingArrives(cs: Arrivals, s: EntityState)
    requires cs != [] && cs[|cs| - 1].None? && CrdbKept(cs[..|cs| - 1], s)
    ensures CrdbKept(cs, s)
  {
    var init := cs[..|cs| - 1];
    assert cs == init + [cs[|cs| - 1]];
    assert forall j :: ClosesAt(cs, s.asOf, j) <==> ClosesAt(init, s.asOf, j);
    if n :| LastClose(init, s, n) {
      assert LastClose(cs, s, n);
    }
    if n :| 0 <= n < |init| && init[n] == Some(s) {
      assert cs[n] == init[n];
    }
  }

  lemma OneMoreArrives(cs: Arrivals, x: EntityState)
    requires cs != [] && cs[|cs| - 1].Some? && CrdbKept(cs[..|cs| - 1], x)
    ensures CrdbKept(cs, CrdbMerge(Some(x), cs[|cs| - 1].value))
  {
    var init, n, s := cs[..|cs| - 1], |cs| - 1, cs[|cs| - 1].value;
    assert cs == init + [cs[n]];
    forall t, j | j < n ensures ClosesAt(cs, t, j) <==> ClosesAt(init, t, j) {
    }
    if x.asOf < s.asOf {
      Later(cs, s);
    } else if x.asOf == s.asOf && Closing(s.stateValue) {
      assert LastClose(cs, s, n);
    } else {
      assert forall j :: ClosesAt(cs, x.asOf, j) <==> ClosesAt(init, x.asOf, j);
      if m :| LastClose(init, x, m) {
        assert LastClose(cs, x, m);
      }
      if m :| 0 <= m < |init| && init[m] == Some(x) {
        assert cs[m] == init[m];
      }
    }
  }

  lemma Later(cs: Arrivals, s: EntityState)
    requires cs != [] && cs[|cs| - 1] == Some(s) && forall x :: Some(x) in cs[..|cs| - 1] ==> x.asOf < s.asOf
    ensures CrdbKept(cs, s)
  {
    var n := |cs| - 1;
    assert cs == cs[..n] + [cs[n]];
    forall j | 0 <= j < n && cs[j].Some? ensures cs[j].value.asOf != s.asOf {
      assert cs[j] in cs[..n];
    }
    if Closing(s.stateValue) {
      assert LastClose(cs, s, n);
    }
  }

  lemma {:induction false} CrdbFolds(cs: Arrivals)
    ensures FoldedBy(Crdb, cs).None? <==> forall x :: Some(x) !in cs
    ensures FoldedBy(Crdb, cs).Some? ==> CrdbKept(cs, FoldedBy(Crdb, cs).value)
  {
    if cs != [] {
      var init, last := cs[..|cs| - 1], cs[|cs| - 1];
      CrdbFolds(init);
      assert cs == init + [last];
      if last.None? && FoldedBy(Crdb, init).Some? {
        NothingArrives(cs, FoldedBy(Crdb, init).value);
      } else if last.Some? && FoldedBy(Crdb, init).Some? {
        OneMoreArrives(cs, FoldedBy(Crdb, init).value);
      } else if last.Some? {
        Later(cs, last.value);
      }
    }
  }

  /**
   * By the rule of the database, for every key and value: after any run the state is that of the latest time; within
   * one instant the last CLOSED or MERGED counts, and where there is none the first to arrive.
   */
  lemma CrdbKeeps(inputs: seq<Input>, k: Key)
    ensures var cs, states := StatesOver(inputs, k), RunLedger(Crdb, inputs).states;
            (k in states <==> exists x :: Some(x) in cs) && (k in states ==> CrdbKept(cs, states[k]))
  {
    LedgerFolds(Crdb, inputs, k);
    CrdbFolds(StatesOver(inputs, k));
  }
}
