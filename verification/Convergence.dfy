/** The lifecycle of a pull request depends on which events were projected, not on their order. */
module Convergence {
  import opened EventMapping
  import opened GraphModel
  import opened GraphOps
  import opened Projection
  import Text

  type Key = (string, string, string)

  /** The part of a state that converges: its time and its value. */
  function Summary(states: map<Key, EntityState>, k: Key): Option<(int, string)> {
    if k in states then Some((states[k].asOf, states[k].stateValue)) else None
  }

  /** `i` is a pull-request event whose lifecycle state goes under `k`. */
  predicate Writes(i: Input, k: Key) {
    i.Ev? && RouteOf(i.event) == PullRequest && StateKey(LifecycleState(i.event)) == k
  }

  /** MERGED before CLOSED before OPEN before every other value. */
  predicate Outranks(a: string, b: string) {
    (a == "MERGED" && b != "MERGED") ||
    (a == "CLOSED" && b !in {"MERGED", "CLOSED"}) ||
    (a == "OPEN" && b !in {"MERGED", "CLOSED", "OPEN"})
  }

  /** Lexicographic order by time, then MERGED over CLOSED over OPEN. */
  predicate NoLater(a: (int, string), b: (int, string)) {
    a.0 < b.0 || (a.0 == b.0 && !Outranks(a.1, b.1))
  }

  /** The time of a pull-request event and what its type says: merged, else closed, else open. */
  function Stamp(ev: Event): (int, string) {
    (ev.timestamp,
     if Text.Contains(ev.eventType, "merged") then "MERGED"
     else if Text.Contains(ev.eventType, "closed") then "CLOSED" else "OPEN")
  }

  /** `s` is the greatest stamp among the inputs that write `k`, or nothing when there are none. */
  ghost predicate IsLatest(inputs: seq<Input>, k: Key, s: Option<(int, string)>) {
    match s
    case None => forall i :: i in inputs ==> !Writes(i, k)
    case Some(v) =>
      && (exists i :: i in inputs && Writes(i, k) && Stamp(i.event) == v)
      && (forall i :: i in inputs && Writes(i, k) ==> NoLater(Stamp(i.event), v))
  }

  /** No two different inputs share a tenant and event id. */
  ghost predicate OnePerId(inputs: seq<Input>) {
    forall a, b :: a in inputs && b in inputs && IdOf(a) == IdOf(b) ==> a == b
  }

  lemma LatestIsUnique(one: seq<Input>, two: seq<Input>, k: Key, s: Option<(int, string)>, t: Option<(int, string)>)
    requires forall i :: i in one <==> i in two
    requires IsLatest(one, k, s) && IsLatest(two, k, t)
    ensures s == t
  {
    if s.Some? && t.Some? {
      var i :| i in one && Writes(i, k) && Stamp(i.event) == s.value;
      var j :| j in two && Writes(j, k) && Stamp(j.event) == t.value;
      assert NoLater(Stamp(i.event), t.value) && NoLater(Stamp(j.event), s.value);
    }
  }

  // --- The two state rules --------------------------------------------------------

  /** The upsert rule of the database-backed store. */
  function CrdbMerge(existing: Option<EntityState>, s: EntityState): EntityState {
    match existing
    case None => s
    case Some(x) =>
      if x.asOf < s.asOf || (x.asOf == s.asOf && x.stateValue != s.stateValue && s.stateValue in {"CLOSED", "MERGED"})
          then s
      else x
  }

  datatype Rule = InMemory | Crdb

  function Merge(rule: Rule, existing: Option<EntityState>, s: EntityState): EntityState {
    match rule
    case InMemory => MergeState(existing, s)
    case Crdb => CrdbMerge(existing, s)
  }

  predicate LifecycleValue(v: string) {
    v in {"OPEN", "CLOSED", "MERGED"}
  }

  /**
   * For lifecycle states of different events the two rules keep the same time and value, except when CLOSED meets
   * MERGED at one instant.
   */
  lemma RulesAgreeIff(x: EntityState, s: EntityState)
    requires LifecycleValue(x.stateValue) && LifecycleValue(s.stateValue) && x.eventId != s.eventId
    ensures var a, b := MergeState(Some(x), s), CrdbMerge(Some(x), s);
            (a.asOf == b.asOf && a.stateValue == b.stateValue) <==>
              !(x.asOf == s.asOf && x.stateValue == "MERGED" && s.stateValue == "CLOSED")
  {
  }

  // --- Runs on the states alone -----------------------------------------------------

  function PutStatesBy(rule: Rule, m: map<Key, EntityState>, ss: seq<EntityState>): map<Key, EntityState>
    decreases |ss|
  {
    if ss == [] then m
    else PutStatesBy(rule, m[StateKey(ss[0]) := Merge(rule, Lookup(m, StateKey(ss[0])), ss[0])], ss[1..])
  }

  /** Recorded ids and entity states. */
  datatype Ledger = Ledger(applied: set<(string, string)>, states: map<Key, EntityState>)

  function Record(rule: Rule, l: Ledger, i: Input): Ledger {
    if IdOf(i) in l.applied then l
    else Ledger(l.applied + {IdOf(i)}, if i.Ev? then PutStatesBy(rule, l.states, StatesFor(i.event, RouteOf(i.event)))
        else l.states)
  }

  function RunLedger(rule: Rule, inputs: seq<Input>): Ledger {
    if inputs == [] then Ledger({}, map[])
    else Record(rule, RunLedger(rule, inputs[..|inputs| - 1]), inputs[|inputs| - 1])
  }

  lemma {:induction false} PutStatesInMemory(m: map<Key, EntityState>, ss: seq<EntityState>)
    ensures PutStatesBy(InMemory, m, ss) == PutStates(m, ss)
    decreases |ss|
  {
    if ss != [] {
      PutStatesInMemory(m[StateKey(ss[0]) := MergeState(Lookup(m, StateKey(ss[0])), ss[0])], ss[1..]);
    }
  }

  /** The engine keeps exactly the ledger's ids and states. */
  lemma {:induction false} RunMatchesLedger(rules: Rules, inputs: seq<Input>)
    ensures var g := Run(rules, EmptySystem, inputs).graph;
            RunLedger(InMemory, inputs) == Ledger(g.applied, g.states)
  {
    if inputs != [] {
      var init, i := inputs[..|inputs| - 1], inputs[|inputs| - 1];
      RunMatchesLedger(rules, init);
      if i.Ev? {
        MapEventSound(rules, i.event, RouteOf(i.event));
        PutStatesInMemory(Run(rules, EmptySystem, init).graph.states, StatesFor(i.event, RouteOf(i.event)));
      }
    }
  }

  /** No CLOSED and MERGED event of one pull request carry the same time. */
  ghost predicate NoClosingTie(inputs: seq<Input>) {
    forall a, b, k ::
      a in inputs && b in inputs && Writes(a, k) && Writes(b, k) && a.event.timestamp == b.event.timestamp ==>
        !(Lifecycle(a.event) == "MERGED" && Lifecycle(b.event) == "CLOSED")
  }

  ghost predicate Orderly(rule: Rule, inputs: seq<Input>) {
    OnePerId(inputs) && (rule == Crdb ==> NoClosingTie(inputs))
  }

  /** The state under `k` was written by one of the inputs and carries the greatest stamp. */
  ghost predicate Tracks(inputs: seq<Input>, l: Ledger, k: Key) {
    && IsLatest(inputs, k, Summary(l.states, k))
    && (k in l.states ==> exists i :: i in inputs && Writes(i, k) && l.states[k] == LifecycleState(i.event))
  }

  lemma {:induction false} LedgerIds(rule: Rule, inputs: seq<Input>, id: (string, string))
    ensures id in RunLedger(rule, inputs).applied <==> exists i :: i in inputs && IdOf(i) == id
  {
    if inputs != [] {
      var init, last := inputs[..|inputs| - 1], inputs[|inputs| - 1];
      LedgerIds(rule, init, id);
      LedgerIds(rule, init, IdOf(last));
      assert inputs == init + [last];
      assert last in inputs;
    }
  }

  lemma PutOne(rule: Rule, m: map<Key, EntityState>, s: EntityState)
    ensures PutStatesBy(rule, m, [s]) == m[StateKey(s) := Merge(rule, Lookup(m, StateKey(s)), s)]
  {
    assert [s][1..] == [];
  }

  lemma OtherKeysUntouched(rule: Rule, l: Ledger, i: Input, k: Key)
    requires k.2 == "lifecycle" && !Writes(i, k)
    ensures Lookup(Record(rule, l, i).states, k) == Lookup(l.states, k)
  {
    if i.Ev? {
      var ss := StatesFor(i.event, RouteOf(i.event));
      if ss != [] {
        PutOne(rule, l.states, ss[0]);
        assert ss == [ss[0]] && StateKey(ss[0]) != k;
      }
    }
  }

  lemma WriterUpdates(rule: Rule, l: Ledger, i: Input, k: Key)
    requires Writes(i, k) && IdOf(i) !in l.applied
    ensures Record(rule, l, i).states == l.states[k := Merge(rule, Lookup(l.states, k), LifecycleState(i.event))]
  {
    PutOne(rule, l.states, LifecycleState(i.event));
  }

  /** Merging one more stamp keeps the greatest. */
  lemma MergeKeepsLatest(rule: Rule, x: EntityState, s: EntityState)
    requires LifecycleValue(x.stateValue) && LifecycleValue(s.stateValue) && x.eventId != s.eventId
    requires rule == Crdb ==> !(x.asOf == s.asOf && x.stateValue == "MERGED" && s.stateValue == "CLOSED")
    ensures var r := Merge(rule, Some(x), s);
            (r == x || r == s) && NoLater((x.asOf, x.stateValue), (r.asOf, r.stateValue))
            && NoLater((s.asOf, s.stateValue), (r.asOf, r.stateValue))
  {
  }

  lemma {:induction false} LedgerTracks(rule: Rule, inputs: seq<Input>, k: Key)
    requires Orderly(rule, inputs) && k.2 == "lifecycle"
    ensures Tracks(inputs, RunLedger(rule, inputs), k)
  {
    if inputs != [] {
      var init, last := inputs[..|inputs| - 1], inputs[|inputs| - 1];
      var l := RunLedger(rule, init);
      assert inputs == init + [last];
      assert forall i :: i in inputs <==> i in init || i == last;
      LedgerTracks(rule, init, k);
      LedgerIds(rule, init, IdOf(last));
      if IdOf(last) in l.applied {
        assert last in init;
        SameInputsTrack(init, inputs, l, k);
      } else if !Writes(last, k) {
        OtherKeysUntouched(rule, l, last, k);
        AddBystander(init, inputs, last, l, Record(rule, l, last), k);
      } else {
        AddWriter(rule, init, inputs, last, l, k);
      }
    }
  }

  lemma SameInputsTrack(one: seq<Input>, two: seq<Input>, l: Ledger, k: Key)
    requires forall i :: i in one <==> i in two
    requires Tracks(one, l, k)
    ensures Tracks(two, l, k)
  {
  }

  lemma AddBystander(init: seq<Input>, inputs: seq<Input>, last: Input, l: Ledger, l': Ledger, k: Key)
    requires inputs == init + [last] && Tracks(init, l, k) && !Writes(last, k)
    requires Lookup(l'.states, k) == Lookup(l.states, k)
    ensures Tracks(inputs, l', k)
  {
    if k in l.states {
      var i :| i in init && Writes(i, k) && l.states[k] == LifecycleState(i.event);
      assert i in inputs;
    }
  }

  lemma AddWriter(rule: Rule, init: seq<Input>, inputs: seq<Input>, last: Input, l: Ledger, k: Key)
    requires inputs == init + [last] && Tracks(init, l, k) && Writes(last, k)
    requires IdOf(last) !in l.applied && forall i :: i in init ==> IdOf(i) != IdOf(last)
    requires Orderly(rule, inputs)
    ensures Tracks(inputs, Record(rule, l, last), k)
  {
    WriterUpdates(rule, l, last, k);
    assert last in inputs;
    if k in l.states {
      AddLaterWriter(rule, init, inputs, last, l, k);
    }
  }

  /** One more writer, and the greater of two stamps is the greatest of all. */
  lemma ExtendLatest(init: seq<Input>, inputs: seq<Input>, last: Input, k: Key, v: (int, string), r: (int, string))
    requires inputs == init + [last] && Writes(last, k) && IsLatest(init, k, Some(v))
    requires r == v || r == Stamp(last.event)
    requires NoLater(v, r) && NoLater(Stamp(last.event), r)
    ensures IsLatest(inputs, k, Some(r))
  {
    var i :| i in init && Writes(i, k) && Stamp(i.event) == v;
    assert i in inputs && last in inputs;
    assert forall j :: j in inputs ==> j in init || j == last;
  }

  lemma AddLaterWriter(rule: Rule, init: seq<Input>, inputs: seq<Input>, last: Input, l: Ledger, k: Key)
    requires inputs == init + [last] && Tracks(init, l, k) && Writes(last, k) && k in l.states
    requires forall i :: i in init ==> IdOf(i) != IdOf(last)
    requires Orderly(rule, inputs)
    ensures var r := Merge(rule, Some(l.states[k]), LifecycleState(last.event));
            IsLatest(inputs, k, Some((r.asOf, r.stateValue))) &&
            exists i :: i in inputs && Writes(i, k) && r == LifecycleState(i.event)
  {
    var i :| i in init && Writes(i, k) && l.states[k] == LifecycleState(i.event);
    assert i in inputs && last in inputs && IdOf(i) != IdOf(last);
    MergeKeepsLatest(rule, l.states[k], LifecycleState(last.event));
    var r := Merge(rule, Some(l.states[k]), LifecycleState(last.event));
    ExtendLatest(init, inputs, last, k, (l.states[k].asOf, l.states[k].stateValue), (r.asOf, r.stateValue));
  }

  /** After any run, a pull request's lifecycle is the greatest stamp among its events. */
  lemma LifecycleIsLatest(rules: Rules, inputs: seq<Input>, k: Key)
    requires OnePerId(inputs) && k.2 == "lifecycle"
    ensures IsLatest(inputs, k, Summary(Run(rules, EmptySystem, inputs).graph.states, k))
  {
    RunMatchesLedger(rules, inputs);
    LedgerTracks(InMemory, inputs, k);
  }

  /** Two runs over the same inputs, in any order and with any repetitions, agree on every lifecycle. */
  lemma RunsConverge(rules: Rules, one: seq<Input>, two: seq<Input>, k: Key)
    requires OnePerId(one) && k.2 == "lifecycle"
    requires forall i :: i in one <==> i in two
    ensures Summary(Run(rules, EmptySystem, one).graph.states, k) == Summary(Run(rules, EmptySystem, two).graph.states,
        k)
  {
    LifecycleIsLatest(rules, one, k);
    LifecycleIsLatest(rules, two, k);
    LatestIsUnique(one, two, k, Summary(Run(rules, EmptySystem, one).graph.states, k),
        Summary(Run(rules, EmptySystem, two).graph.states, k));
  }

  /**
   * Without a CLOSED and a MERGED at one instant, the database rule ends with the same lifecycles, again in any order.
   */
  lemma CrdbConverges(rules: Rules, one: seq<Input>, two: seq<Input>, k: Key)
    requires OnePerId(one) && NoClosingTie(one) && k.2 == "lifecycle"
    requires forall i :: i in one <==> i in two
    ensures Summary(RunLedger(Crdb, two).states, k) == Summary(Run(rules, EmptySystem, one).graph.states, k)
  {
    LifecycleIsLatest(rules, one, k);
    LedgerTracks(Crdb, two, k);
    LatestIsUnique(one, two, k, Summary(Run(rules, EmptySystem, one).graph.states, k),
        Summary(RunLedger(Crdb, two).states, k));
  }

  /** Both rules end a run with the same lifecycle. */
  ghost predicate RulesEndAlike(rules: Rules, inputs: seq<Input>, k: Key) {
    Summary(RunLedger(Crdb, inputs).states, k) == Summary(Run(rules, EmptySystem, inputs).graph.states, k)
  }

  ghost predicate DrawnFrom(inputs: seq<Input>, all: seq<Input>) {
    forall i :: i in inputs ==> i in all
  }

  lemma DrawnConverges(rules: Rules, all: seq<Input>, inputs: seq<Input>, k: Key)
    requires OnePerId(all) && NoClosingTie(all) && DrawnFrom(inputs, all) && k.2 == "lifecycle"
    ensures RulesEndAlike(rules, inputs, k)
  {
    CrdbConverges(rules, inputs, inputs, k);
  }

  lemma LastWrite(rule: Rule, init: seq<Input>, last: Input, k: Key)
    requires Writes(last, k) && IdOf(last) !in RunLedger(rule, init).applied
    ensures var l, r := RunLedger(rule, init), RunLedger(rule, init + [last]);
            r.applied == l.applied + {IdOf(last)} &&
            r.states == l.states[k := Merge(rule, Lookup(l.states, k), LifecycleState(last.event))]
  {
    assert (init + [last])[..|init|] == init;
    WriterUpdates(rule, RunLedger(rule, init), last, k);
  }

  /** MERGED first and CLOSED second: the store in memory keeps MERGED, the database takes CLOSED. */
  lemma TieParts(rules: Rules, a: Input, b: Input, k: Key)
    requires Writes(a, k) && Writes(b, k) && IdOf(a) != IdOf(b) && a.event.timestamp == b.event.timestamp
    requires Lifecycle(a.event) == "MERGED" && Lifecycle(b.event) == "CLOSED"
    ensures !RulesEndAlike(rules, [a, b], k)
  {
    RunMatchesLedger(rules, [a, b]);
    TieEnds(Crdb, a, b, k);
    TieEnds(InMemory, a, b, k);
    RulesAgreeIff(LifecycleState(a.event), LifecycleState(b.event));
  }

  lemma TieEnds(rule: Rule, a: Input, b: Input, k: Key)
    requires Writes(a, k) && Writes(b, k) && IdOf(a) != IdOf(b)
    ensures var states := RunLedger(rule, [a, b]).states;
            k in states && states[k] == Merge(rule, Some(LifecycleState(a.event)), LifecycleState(b.event))
  {
    FirstWrite(rule, a, k);
    assert [a] + [b] == [a, b];
    LastWrite(rule, [a], b, k);
  }

  lemma FirstWrite(rule: Rule, a: Input, k: Key)
    requires Writes(a, k)
    ensures RunLedger(rule, [a]) == Ledger({IdOf(a)}, map[k := LifecycleState(a.event)])
  {
    var none: seq<Input> := [];
    assert none + [a] == [a] && RunLedger(rule, none) == Ledger({}, map[]);
    LastWrite(rule, none, a, k);
  }

  /**
   * The two rules give the same lifecycles in every run drawn from these inputs exactly when no CLOSED and MERGED tie.
   */
  lemma RunRulesAgreeIff(rules: Rules, all: seq<Input>)
    requires OnePerId(all)
    ensures (forall inputs, k: Key :: DrawnFrom(inputs, all) && k.2 == "lifecycle" ==>
        RulesEndAlike(rules, inputs, k)) <==>
            NoClosingTie(all)
  {
    if NoClosingTie(all) {
      forall inputs, k: Key | DrawnFrom(inputs, all) && k.2 == "lifecycle" ensures RulesEndAlike(rules, inputs, k) {
        DrawnConverges(rules, all, inputs, k);
      }
    } else {
      var a, b, k :| a in all && b in all && Writes(a, k) && Writes(b, k) && a.event.timestamp == b.event.timestamp &&
                     Lifecycle(a.event) == "MERGED" && Lifecycle(b.event) == "CLOSED";
      assert DrawnFrom([a, b], all);
      TieParts(rules, a, b, k);
    }
  }
}
