/** One fetch of the consume loop: records are projected in order, each offset saved after its record. */
module ConsumeLoop {
  import opened GraphModel
  import opened GraphOps
  import opened Projection
  import opened Projector
  import EventMapping

  type Partition = (string, string, int)

  class MemoryOffsetStore {
    var inner: map<Partition, nat>

    constructor ()
      ensures inner == map[]
    {
      inner := map[];
    }

    method Save(key: Partition, next: nat)
      modifies this
      ensures inner == old(inner)[key := next]
    {
      inner := inner[key := next];
    }

    /** The saved offset if there is one, else the earliest one of the broker. */
    method ResolveStart(key: Partition, earliest: nat) returns (start: nat)
      ensures start == StartOffset(Log([], earliest), Lookup(inner, key))
      ensures start == if key in inner then inner[key] else earliest
    {
      if key in inner {
        return inner[key];
      }
      return earliest;
    }
  }

  /** A revocation the membership store refuses the first time it is seen. */
  ghost predicate Refused(s: System, p: Payload) {
    p.Message? && p.input.Rev? && IdOf(p.input) !in s.graph.applied && !Accepted(s.members, p.input)
  }

  function ProjectPayload(rules: EventMapping.Rules, s: System, p: Payload): System {
    match p
    case Message(i) => Project(rules, s, i)
    case _ => s
  }

  /** One pass over fetched records: the system it leaves and how many records it got past. */
  ghost function Consume(rules: EventMapping.Rules, s: System, ps: seq<Payload>): (r: (System, nat))
    ensures r.1 <= |ps|
    decreases |ps|
  {
    if ps == [] then (s, 0)
    else
      var after := ProjectPayload(rules, s, ps[0]);
      if Refused(s, ps[0]) then (after, 0)
      else
        var rest := Consume(rules, after, ps[1..]);
        (rest.0, rest.1 + 1)
  }

  /** Applies one record value; `handled` is false only for a refused revocation, unrecognized values are skipped. */
  method HandlePayload(engine: ProjectEngine, p: Payload) returns (handled: bool)
    requires WellFormed(engine.store.Contents())
    modifies engine.store, engine.membership
    ensures WellFormed(engine.store.Contents())
    ensures engine.State() == ProjectPayload(engine.rules, old(engine.State()), p)
    ensures handled <==> !Refused(old(engine.State()), p)
  {
    match p {
      case Message(Ev(ev)) =>
        var _ := engine.ProjectEvent(ev);
        return true;
      case Message(Rev(r)) =>
        var o := engine.ProjectAclRevocation(r);
        return o.Some?;
      case _ =>
        return true;
    }
  }

  /**
   * Handles `records`, fetched from `offset` on, saving the offset behind every record it gets past; the first
   * refused revocation ends the batch.
   */
  method ConsumeBatch(engine: ProjectEngine, offsets: MemoryOffsetStore, key: Partition, records: seq<Payload>,
      offset: nat)
    returns (next: nat)
    requires WellFormed(engine.store.Contents())
    modifies engine.store, engine.membership, offsets
    ensures WellFormed(engine.store.Contents())
    ensures (engine.State(), next - offset) == Consume(engine.rules, old(engine.State()), records)
    ensures offsets.inner == if next == offset then old(offsets.inner) else old(offsets.inner)[key := next]
  {
    next := offset;
    ghost var goal := Consume(engine.rules, engine.State(), records);
    var rest := records;
    while rest != []
      invariant offset <= next && WellFormed(engine.store.Contents())
      invariant Onward(engine.rules, engine.State(), rest, next - offset) == goal
      invariant offsets.inner == if next == offset then old(offsets.inner) else old(offsets.inner)[key := next]
    {
      var handled := HandlePayload(engine, rest[0]);
      if !handled {
        return;
      }
      rest, next := rest[1..], next + 1;
      offsets.Save(key, next);
    }
  }

  ghost function Onward(rules: EventMapping.Rules, s: System, ps: seq<Payload>, past: nat): (System, nat) {
    var r := Consume(rules, s, ps);
    (r.0, past + r.1)
  }

  lemma {:induction false} InputsAppend(a: seq<Payload>, b: seq<Payload>)
    ensures Inputs(a + b) == Inputs(a) + Inputs(b)
  {
    if b == [] {
      assert a + b == a;
    } else {
      InputsAppend(a, b[..|b| - 1]);
      assert (a + b)[..|a + b| - 1] == a + b[..|b| - 1];
    }
  }

  lemma OneRecordRun(rules: EventMapping.Rules, s: System, p: Payload)
    ensures Run(rules, s, Inputs([p])) == ProjectPayload(rules, s, p)
  {
    var none: seq<Payload> := [];
    assert [p][..0] == none && Inputs(none) == [];
    InputsLast([p]);
    if p.Message? {
      assert Inputs([p]) == [p.input];
      RunOne(rules, s, p.input);
    }
  }

  lemma FirstPayload(rules: EventMapping.Rules, s: System, ps: seq<Payload>)
    requires ps != []
    ensures Run(rules, s, Inputs(ps)) == Run(rules, ProjectPayload(rules, s, ps[0]), Inputs(ps[1..]))
  {
    InputsAppend([ps[0]], ps[1..]);
    assert [ps[0]] + ps[1..] == ps;
    RunAppend(rules, s, Inputs([ps[0]]), Inputs(ps[1..]));
    OneRecordRun(rules, s, ps[0]);
  }

  /** A record already recorded, or projected before, changes nothing the second time. */
  lemma ProjectTwice(rules: EventMapping.Rules, s: System, p: Payload)
    ensures var t := ProjectPayload(rules, s, p);
            ProjectPayload(rules, t, p) == t && !Refused(t, p)
  {
  }

  /** What a pass over `ps` leaves behind, ending in `t` with `n` records passed. */
  ghost predicate Resumable(rules: EventMapping.Rules, s: System, ps: seq<Payload>, t: System, n: nat) {
    n <= |ps| &&
    Run(rules, t, Inputs(ps[n..])) == Run(rules, s, Inputs(ps)) &&
    (n < |ps| ==> Refused(Run(rules, s, Inputs(ps[..n])), ps[n]) && Consume(rules, t, ps[n..]).1 > 0)
  }

  lemma StoppedAtOnce(rules: EventMapping.Rules, s: System, ps: seq<Payload>)
    requires ps != [] && Refused(s, ps[0])
    ensures Resumable(rules, s, ps, ProjectPayload(rules, s, ps[0]), 0)
  {
    var after := ProjectPayload(rules, s, ps[0]);
    FirstPayload(rules, s, ps);
    FirstPayload(rules, after, ps);
    ProjectTwice(rules, s, ps[0]);
    assert ps[0..] == ps && ps[..0] == [];
  }

  lemma FirstOfPrefix(rules: EventMapping.Rules, s: System, ps: seq<Payload>, n: nat)
    requires n < |ps|
    ensures Run(rules, s, Inputs(ps[..n + 1])) == Run(rules, ProjectPayload(rules, s, ps[0]), Inputs(ps[1..][..n]))
  {
    var some := ps[..n + 1];
    assert some[0] == ps[0] && some[1..] == ps[1..][..n];
    FirstPayload(rules, s, some);
  }

  lemma OnePassed(rules: EventMapping.Rules, s: System, ps: seq<Payload>, t: System, n: nat)
    requires ps != [] && Resumable(rules, ProjectPayload(rules, s, ps[0]), ps[1..], t, n)
    ensures Resumable(rules, s, ps, t, n + 1)
  {
    FirstPayload(rules, s, ps);
    assert ps[1..][n..] == ps[n + 1..];
    if n + 1 < |ps| {
      FirstOfPrefix(rules, s, ps, n);
      assert ps[1..][n] == ps[n + 1];
    }
  }

  /**
   * A pass that stops early lost nothing: fetching again from the saved offset gets past the record it stopped at,
   * and ends in the system of the uninterrupted run over all the records.
   */
  lemma {:induction false} RefetchCompletes(rules: EventMapping.Rules, s: System, ps: seq<Payload>)
    ensures var (t, n) := Consume(rules, s, ps); Resumable(rules, s, ps, t, n)
    decreases |ps|
  {
    if ps == [] {
    } else if Refused(s, ps[0]) {
      StoppedAtOnce(rules, s, ps);
    } else {
      var after := ProjectPayload(rules, s, ps[0]);
      RefetchCompletes(rules, after, ps[1..]);
      var (t, n) := Consume(rules, after, ps[1..]);
      OnePassed(rules, s, ps, t, n);
    }
  }
}
