/** The log consumer: projects records one by one, commits offsets afterwards, and may crash anywhere. */
module Projector {
  import opened EventMapping
  import opened GraphModel
  import opened GraphOps
  import opened Membership
  import opened Numbers
  import opened Projection

  datatype Payload = NoValue | Unrecognized | Message(input: Input)

  /** A partition log whose retained part starts at `earliest`. */
  datatype Log = Log(records: seq<Payload>, earliest: nat)

  ghost predicate ValidLog(log: Log) {
    log.earliest <= |log.records|
  }

  /** Where the consumer stands with the record at its offset. */
  datatype Pc = Fetch | Marked | MembersDone | Save

  /** What of a projection was done when the rest was left out for good. */
  datatype Loss = NoEffect | MembershipOnly | GraphOnly

  /**
   * `sys` and `saved` survive a crash, `offset`, `pc` and `attempts` do not. `decided` counts the records whose
   * fate is settled and `losses` the ids marked as applied without their full effect; both only record history.
   */
  datatype Consumer = Consumer(
    sys: System, saved: Option<nat>, offset: nat, pc: Pc, attempts: nat, decided: nat, losses: map<(string, string),
        Loss>)

  /**
   * One step of the consumer, of its stores, or of the world around it. `StoreFails` and `MembersFail` are calls that
   * fail without effect; the failure of a membership change made for an event is swallowed. `Unanswered` is a call
   * that takes effect and still reports an error.
   */
  datatype Label =
    | Attempt | MarkFails | ChangeMembers | MembersFail | ApplyGraph | StoreFails | Unanswered
    | SaveOffset | SaveFails | Crash

  function StartOffset(log: Log, saved: Option<nat>): nat {
    match saved
    case Some(n) => n
    case None => log.earliest
  }

  function Initial(log: Log): Consumer {
    Consumer(EmptySystem, None, log.earliest, Fetch, 0, log.earliest, map[])
  }

  /** The record is passed: the offset moves on and is about to be saved. */
  function Pass(c: Consumer): Consumer {
    c.(offset := c.offset + 1, pc := Save, decided := Max(c.decided, c.offset + 1))
  }

  function MembersEffect(s: System, i: Input): System {
    match i
    case Ev(e) => if ConcernsMembership(e) then s.(members := MembershipAfter(s.members, e)) else s
    case Rev(r) => s.(members := ChangeOrKeep(s.members, r.tenantId, r.userId, r.groupId, r.changeType))
  }

  function GraphEffect(rules: Rules, s: System, i: Input): System {
    match i
    case Ev(e) => s.(graph := Apply(s.graph, MapEvent(rules, e)))
    case Rev(_) => s
  }

  predicate Accepted(m: Members, i: Input) {
    i.Rev? ==> Change(m, i.revocation.tenantId, i.revocation.userId, i.revocation.groupId, i.revocation.changeType).Ok?
  }

  /** The record is given up with an error; its id stays marked, so nobody projects it again. */
  function Drop(c: Consumer): Consumer {
    c.(pc := Fetch, decided := Max(c.decided, c.offset + 1))
  }

  /** What is still to be done of the current input. */
  function Finished(rules: Rules, c: Consumer, i: Input): System {
    match c.pc
    case Marked => GraphEffect(rules, MembersEffect(c.sys, i), i)
    case MembersDone => GraphEffect(rules, c.sys, i)
    case _ => c.sys
  }

  function WithLoss(losses: map<(string, string), Loss>, id: (string, string), loss: Option<Loss>): map<(string,
      string), Loss> {
    if loss.Some? then losses[id := loss.value] else losses
  }

  /** What is lost when the projection stops here: nothing when there was nothing left to change. */
  function LossOf(rules: Rules, c: Consumer, i: Input): Option<Loss> {
    if Finished(rules, c, i) == c.sys then None
    else if c.pc == Marked || IdOf(i) in c.losses then Some(NoEffect)
    else Some(MembershipOnly)
  }

  /** The projection of the current record is abandoned. */
  function Abandon(rules: Rules, c: Consumer, i: Input): Consumer {
    Drop(c).(losses := WithLoss(c.losses, IdOf(i), LossOf(rules, c, i)))
  }

  predicate AtMessage(log: Log, c: Consumer) {
    c.offset < |log.records| && log.records[c.offset].Message?
  }

  function TryRecord(log: Log, c: Consumer): Consumer {
    if c.pc != Fetch || c.offset >= |log.records| then c
    else
      var c' := c.(attempts := c.attempts + 1);
      match log.records[c.offset]
      case Message(i) =>
        if IdOf(i) in c.sys.graph.applied then Pass(c') else c'.(sys := MarkInput(c.sys, i), pc := Marked)
      case _ => Pass(c')
  }

  function TryMembers(log: Log, c: Consumer): Consumer {
    if c.pc != Marked || !AtMessage(log, c) then c
    else
      var i := log.records[c.offset].input;
      var c' := c.(sys := MembersEffect(c.sys, i));
      if i.Ev? then c'.(pc := MembersDone)
      else if Accepted(c.sys.members, i) then Pass(c')
      else Drop(c')
  }

  /** The membership change made for an event fails and the projection goes on without it. */
  function SkipMembers(log: Log, c: Consumer): Consumer {
    if c.pc != Marked || !AtMessage(log, c) || log.records[c.offset].input.Rev? then c
    else
      var i := log.records[c.offset].input;
      var c' := c.(pc := MembersDone);
      if MembersEffect(c.sys, i) == c.sys then c' else c'.(losses := c.losses[IdOf(i) := GraphOnly])
  }

  function TryGraph(rules: Rules, log: Log, c: Consumer): Consumer {
    if c.pc != MembersDone || !AtMessage(log, c) then c
    else Pass(c.(sys := GraphEffect(rules, c.sys, log.records[c.offset].input)))
  }

  /** A store call whose error ends the projection: a revocation's change, or a mutation that is not empty. */
  predicate Calling(rules: Rules, log: Log, c: Consumer) {
    AtMessage(log, c) &&
    var i := log.records[c.offset].input;
    (c.pc == Marked && i.Rev?) || (c.pc == MembersDone && i.Ev? && !IsEmpty(MapEvent(rules, i.event)))
  }

  predicate MidProjection(log: Log, c: Consumer) {
    (c.pc.Marked? || c.pc.MembersDone?) && AtMessage(log, c)
  }

  /** Gives up the projection in progress, if there is one. */
  function GiveUp(rules: Rules, log: Log, c: Consumer): Consumer {
    if MidProjection(log, c) then Abandon(rules, c, log.records[c.offset].input) else c
  }

  /** The current call takes effect but answers with an error. */
  function LoseAnswer(rules: Rules, log: Log, c: Consumer): Consumer {
    if !AtMessage(log, c) then c
    else
      var i := log.records[c.offset].input;
      match c.pc
      case Fetch =>
        if IdOf(i) in c.sys.graph.applied then c
        else Abandon(rules, c.(attempts := c.attempts + 1, sys := MarkInput(c.sys, i), pc := Marked), i)
      case Marked => if i.Ev? then TryMembers(log, c) else Drop(c.(sys := MembersEffect(c.sys, i)))
      case MembersDone => if Calling(rules, log, c) then Drop(c.(sys := GraphEffect(rules, c.sys, i))) else c
      case Save => c
  }

  /** A label that does not fit the current state changes nothing. */
  function Step(rules: Rules, log: Log, c: Consumer, l: Label): Consumer {
    match l
    case Attempt => TryRecord(log, c)
    case MarkFails => if c.pc == Fetch && AtMessage(log, c) then c.(attempts := c.attempts + 1) else c
    case ChangeMembers => TryMembers(log, c)
    case MembersFail => SkipMembers(log, c)
    case ApplyGraph => TryGraph(rules, log, c)
    case StoreFails => if Calling(rules, log, c) then GiveUp(rules, log, c) else c
    case Unanswered => LoseAnswer(rules, log, c)
    case SaveOffset => if c.pc == Save then c.(saved := Some(c.offset), pc := Fetch, attempts := 0) else c
    case SaveFails => if c.pc == Save then c.(pc := Fetch, attempts := 0) else c
    case Crash => GiveUp(rules, log, c).(offset := StartOffset(log, c.saved), pc := Fetch, attempts := 0)
  }

  function RunSteps(rules: Rules, log: Log, labels: seq<Label>): Consumer {
    if labels == [] then Initial(log)
    else Step(rules, log, RunSteps(rules, log, labels[..|labels| - 1]), labels[|labels| - 1])
  }

  // --- The fold the consumer is measured against ----------------------------------------

  /** One record, projected without interruption except for the losses given. */
  function Fold1(rules: Rules, losses: map<(string, string), Loss>, s: System, p: Payload): System {
    match p
    case Message(i) =>
      if IdOf(i) in s.graph.applied then s
      else if IdOf(i) in losses then
        (match losses[IdOf(i)]
         case NoEffect => MarkInput(s, i)
         case MembershipOnly => MembersEffect(MarkInput(s, i), i)
         case GraphOnly => GraphEffect(rules, MarkInput(s, i), i))
      else GraphEffect(rules, MembersEffect(MarkInput(s, i), i), i)
    case _ => s
  }

  function Fold(rules: Rules, losses: map<(string, string), Loss>, ps: seq<Payload>): System {
    if ps == [] then EmptySystem
    else Fold1(rules, losses, Fold(rules, losses, ps[..|ps| - 1]), ps[|ps| - 1])
  }

  /** The inputs carried by a stretch of the log. */
  function Inputs(ps: seq<Payload>): seq<Input> {
    if ps == [] then []
    else Inputs(ps[..|ps| - 1]) + match ps[|ps| - 1] case Message(i) => [i] case _ => []
  }

  lemma InputsLast(ps: seq<Payload>)
    requires ps != []
    ensures var init, last := ps[..|ps| - 1], ps[|ps| - 1];
            Inputs(ps) == if last.Message? then Inputs(init) + [last.input] else Inputs(init)
  {
    assert Inputs(ps[..|ps| - 1]) + [] == Inputs(ps[..|ps| - 1]);
  }

  lemma FoldOne(rules: Rules, s: System, p: Payload)
    ensures Fold1(rules, map[], s, p) == if p.Message? then Project(rules, s, p.input) else s
  {
    if p.Message? {
      EffectInTwoSteps(rules, MarkInput(s, p.input), p.input);
    }
  }

  lemma {:induction false} FoldWithoutLosses(rules: Rules, ps: seq<Payload>)
    ensures Fold(rules, map[], ps) == Run(rules, EmptySystem, Inputs(ps))
  {
    if ps != [] {
      var init, last := ps[..|ps| - 1], ps[|ps| - 1];
      FoldWithoutLosses(rules, init);
      InputsLast(ps);
      FoldOne(rules, Fold(rules, map[], init), last);
      if last.Message? {
        RunLast(rules, EmptySystem, Inputs(init), last.input);
      }
    }
  }

  lemma {:induction false} FoldIgnoresNewLoss(rules: Rules, losses: map<(string, string), Loss>, ps: seq<Payload>,
      id: (string, string), loss: Loss)
    requires id !in Fold(rules, losses, ps).graph.applied
    ensures Fold(rules, losses[id := loss], ps) == Fold(rules, losses, ps)
  {
    if ps != [] {
      FoldIgnoresNewLoss(rules, losses, ps[..|ps| - 1], id, loss);
    }
  }

  lemma {:induction false} FoldMarks(rules: Rules, losses: map<(string, string), Loss>, ps: seq<Payload>, p: Payload)
    requires p in ps && p.Message?
    ensures IdOf(p.input) in Fold(rules, losses, ps).graph.applied
  {
    var init := ps[..|ps| - 1];
    assert ps == init + [ps[|ps| - 1]];
    if p in init {
      FoldMarks(rules, losses, init, p);
    }
  }

  // --- Invariant ---------------------------------------------------------------------------

  function Settled(log: Log, c: Consumer): seq<Payload>
    requires log.earliest <= c.decided <= |log.records|
  {
    log.records[log.earliest..c.decided]
  }

  ghost predicate Placed(log: Log, c: Consumer) {
    && log.earliest <= c.offset <= c.decided <= |log.records|
    && (c.saved.Some? ==> log.earliest <= c.saved.value <= c.decided)
    && (c.pc in {Marked, MembersDone} ==> c.offset == c.decided && AtMessage(log, c))
  }

  /** The durable state is the fold over the settled records, plus what has been done of the current one. */
  ghost predicate Inv(rules: Rules, log: Log, c: Consumer) {
    && Placed(log, c)
    && var base := Fold(rules, c.losses, Settled(log, c));
    && (c.pc in {Fetch, Save} ==> c.sys == base)
    && (c.pc in {Marked, MembersDone} ==> Underway(base, c, log.records[c.offset].input))
    && (forall id :: id in c.losses ==>
          id in base.graph.applied || (c.pc == MembersDone && id == IdOf(log.records[c.offset].input)))
  }

  /** The current input has been marked, and its membership change made or left out. */
  ghost predicate Underway(base: System, c: Consumer, i: Input) {
    && IdOf(i) !in base.graph.applied
    && (c.pc == Marked ==> IdOf(i) !in c.losses && c.sys == MarkInput(base, i))
    && (c.pc == MembersDone ==>
          i.Ev? && if IdOf(i) in c.losses then c.losses[IdOf(i)] == GraphOnly && c.sys == MarkInput(base, i)
                   else c.sys == MembersEffect(MarkInput(base, i), i))
  }

  lemma SettleOne(rules: Rules, losses: map<(string, string), Loss>, log: Log, from: nat, n: nat)
    requires from <= n < |log.records|
    ensures Fold(rules, losses, log.records[from..n + 1]) == Fold1(rules, losses,
        Fold(rules, losses, log.records[from..n]), log.records[n])
  {
    assert log.records[from..n + 1] == log.records[from..n] + [log.records[n]];
  }

  lemma StepKeepsInv(rules: Rules, log: Log, c: Consumer, l: Label)
    requires ValidLog(log) && Inv(rules, log, c)
    ensures Inv(rules, log, Step(rules, log, c, l))
  {
    match l
    case Attempt => AttemptKeepsInv(rules, log, c);
    case ChangeMembers => ChangeKeepsInv(rules, log, c);
    case MembersFail => SkipKeepsInv(rules, log, c);
    case ApplyGraph => ApplyKeepsInv(rules, log, c);
    case StoreFails => AbandonKeepsInv(rules, log, c);
    case Unanswered => UnansweredKeepsInv(rules, log, c);
    case Crash =>
      AbandonKeepsInv(rules, log, c);
      RewindKeepsInv(rules, log, GiveUp(rules, log, c));
    case _ =>
  }

  lemma FoldSkips(rules: Rules, losses: map<(string, string), Loss>, base: System, p: Payload)
    requires p.Message? ==> IdOf(p.input) in base.graph.applied
    ensures Fold1(rules, losses, base, p) == base
  {
  }

  /** One record more is settled, and the consumer stands at it or behind it. */
  lemma RestsKeepsInv(rules: Rules, log: Log, c: Consumer, next: Consumer)
    requires Placed(log, c) && c.offset == c.decided < |log.records|
    requires next.pc in {Fetch, Save} && c.offset <= next.offset <= c.offset + 1
    requires next.decided == c.decided + 1 && next.saved == c.saved
    requires next.sys == Fold(rules, next.losses, log.records[log.earliest..c.decided + 1])
    requires forall id :: id in next.losses ==> id in next.sys.graph.applied
    ensures Inv(rules, log, next)
  {
  }

  lemma FrontierKeepsInv(rules: Rules, log: Log, c: Consumer)
    requires ValidLog(log) && Inv(rules, log, c) && c.pc == Fetch && c.offset == c.decided < |log.records|
    ensures Inv(rules, log, TryRecord(log, c))
  {
    SettleOne(rules, c.losses, log, log.earliest, c.decided);
    if log.records[c.offset].Message? ==> IdOf(log.records[c.offset].input) in c.sys.graph.applied {
      FoldSkips(rules, c.losses, c.sys, log.records[c.offset]);
      RestsKeepsInv(rules, log, c, TryRecord(log, c));
    }
  }

  lemma AttemptKeepsInv(rules: Rules, log: Log, c: Consumer)
    requires ValidLog(log) && Inv(rules, log, c)
    ensures Inv(rules, log, TryRecord(log, c))
  {
    if c.pc == Fetch && c.offset < |log.records| {
      if c.offset == c.decided {
        FrontierKeepsInv(rules, log, c);
      } else {
        assert log.records[c.offset] == Settled(log, c)[c.offset - log.earliest];
        if log.records[c.offset].Message? {
          FoldMarks(rules, c.losses, Settled(log, c), log.records[c.offset]);
        }
      }
    }
  }

  lemma ChangeKeepsInv(rules: Rules, log: Log, c: Consumer)
    requires ValidLog(log) && Inv(rules, log, c)
    ensures Inv(rules, log, TryMembers(log, c))
  {
    if c.pc == Marked && log.records[c.offset].input.Rev? {
      FoldedInput(rules, c.losses, Fold(rules, c.losses, Settled(log, c)), log.records[c.offset].input);
      ConcludeKeepsInv(rules, log, c, c.(sys := MembersEffect(c.sys, log.records[c.offset].input)), None);
    }
  }

  lemma SkipKeepsInv(rules: Rules, log: Log, c: Consumer)
    requires ValidLog(log) && Inv(rules, log, c)
    ensures Inv(rules, log, SkipMembers(log, c))
  {
    if c.pc == Marked && log.records[c.offset].input.Ev? {
      FoldIgnoresNewLoss(rules, c.losses, Settled(log, c), IdOf(log.records[c.offset].input), GraphOnly);
    }
  }

  /** What the fold makes of an input, with or without a loss. */
  lemma FoldedInput(rules: Rules, losses: map<(string, string), Loss>, base: System, i: Input)
    requires IdOf(i) !in base.graph.applied
    ensures var s, t := MarkInput(base, i), Fold1(rules, losses, base, Message(i));
            t == (if IdOf(i) !in losses then GraphEffect(rules, MembersEffect(s, i), i)
                  else match losses[IdOf(i)]
                       case NoEffect => s
                       case MembershipOnly => MembersEffect(s, i)
                       case GraphOnly => GraphEffect(rules, s, i)) &&
            IdOf(i) in t.graph.applied && base.graph.applied <= t.graph.applied
  {
  }

  lemma ConcludedFold(rules: Rules, log: Log, c: Consumer, done: Consumer, loss: Option<Loss>)
    requires Placed(log, c) && MidProjection(log, c)
    requires var i, base := log.records[c.offset].input, Fold(rules, c.losses, Settled(log, c));
             IdOf(i) !in base.graph.applied && forall id :: id in c.losses ==> id in base.graph.applied || id == IdOf(i)
    requires var i := log.records[c.offset].input;
             done.sys == Fold1(rules, done.losses, Fold(rules, c.losses, Settled(log, c)), Message(i)) &&
             done.losses == WithLoss(c.losses, IdOf(i), loss)
    ensures done.sys == Fold(rules, done.losses, log.records[log.earliest..c.decided + 1])
    ensures forall id :: id in done.losses ==> id in done.sys.graph.applied
  {
    var i := log.records[c.offset].input;
    var base := Fold(rules, c.losses, Settled(log, c));
    FoldWithLoss(rules, c.losses, Settled(log, c), IdOf(i), loss);
    LossesMarked(rules, c.losses, base, i, loss);
    SettleOne(rules, done.losses, log, log.earliest, c.decided);
  }

  lemma LossesMarked(rules: Rules, losses: map<(string, string), Loss>, base: System, i: Input, loss: Option<Loss>)
    requires IdOf(i) !in base.graph.applied && forall id :: id in losses ==> id in base.graph.applied || id == IdOf(i)
    ensures var losses' := WithLoss(losses, IdOf(i), loss);
            forall id :: id in losses' ==> id in Fold1(rules, losses', base, Message(i)).graph.applied
  {
    FoldedInput(rules, WithLoss(losses, IdOf(i), loss), base, i);
  }

  /** The current record is decided: `done` holds the system and the losses afterwards. */
  lemma ConcludeKeepsInv(rules: Rules, log: Log, c: Consumer, done: Consumer, loss: Option<Loss>)
    requires ValidLog(log) && Inv(rules, log, c) && MidProjection(log, c)
    requires done.offset == c.offset && done.decided == c.decided && done.saved == c.saved
    requires var i := log.records[c.offset].input;
             done.sys == Fold1(rules, done.losses, Fold(rules, c.losses, Settled(log, c)), Message(i)) &&
             done.losses == WithLoss(c.losses, IdOf(i), loss)
    ensures Inv(rules, log, Drop(done)) && Inv(rules, log, Pass(done))
  {
    ConcludedFold(rules, log, c, done, loss);
    RestsKeepsInv(rules, log, c, Drop(done));
    RestsKeepsInv(rules, log, c, Pass(done));
  }

  lemma FoldWithLoss(rules: Rules, losses: map<(string, string), Loss>, ps: seq<Payload>, id: (string, string),
      loss: Option<Loss>)
    requires id !in Fold(rules, losses, ps).graph.applied
    ensures Fold(rules, WithLoss(losses, id, loss), ps) == Fold(rules, losses, ps)
  {
    if loss.Some? {
      FoldIgnoresNewLoss(rules, losses, ps, id, loss.value);
    }
  }

  lemma ApplyKeepsInv(rules: Rules, log: Log, c: Consumer)
    requires ValidLog(log) && Inv(rules, log, c)
    ensures Inv(rules, log, TryGraph(rules, log, c))
    ensures MidProjection(log, c) && c.pc == MembersDone ==>
              Inv(rules, log, Drop(c.(sys := GraphEffect(rules, c.sys, log.records[c.offset].input))))
  {
    if c.pc == MembersDone {
      var i := log.records[c.offset].input;
      FoldedInput(rules, c.losses, Fold(rules, c.losses, Settled(log, c)), i);
      ConcludeKeepsInv(rules, log, c, c.(sys := GraphEffect(rules, c.sys, i)), None);
    }
  }

  /** The consumer with its loss recorded, which is where the fold stands then. */
  lemma GivenUp(rules: Rules, log: Log, c: Consumer, i: Input) returns (done: Consumer)
    requires Inv(rules, log, c) && MidProjection(log, c) && log.records[c.offset] == Message(i)
    ensures done == c.(losses := WithLoss(c.losses, IdOf(i), LossOf(rules, c, i)))
    ensures done.sys == Fold1(rules, done.losses, Fold(rules, c.losses, Settled(log, c)), Message(i))
  {
    done := c.(losses := WithLoss(c.losses, IdOf(i), LossOf(rules, c, i)));
    LossFolds(rules, Fold(rules, c.losses, Settled(log, c)), c, i);
  }

  lemma AbandonAt(rules: Rules, log: Log, c: Consumer, i: Input)
    requires ValidLog(log) && Inv(rules, log, c) && MidProjection(log, c) && log.records[c.offset] == Message(i)
    ensures Inv(rules, log, Abandon(rules, c, i))
  {
    var done := GivenUp(rules, log, c, i);
    ConcludeKeepsInv(rules, log, c, done, LossOf(rules, c, i));
    assert Drop(done) == Abandon(rules, c, i);
  }

  lemma AbandonKeepsInv(rules: Rules, log: Log, c: Consumer)
    requires ValidLog(log) && Inv(rules, log, c)
    ensures Inv(rules, log, GiveUp(rules, log, c)) && GiveUp(rules, log, c).pc in {Fetch, Save}
    ensures GiveUp(rules, log, c).decided >= c.decided && GiveUp(rules, log, c).saved == c.saved
  {
    if MidProjection(log, c) {
      AbandonAt(rules, log, c, log.records[c.offset].input);
    } else {
      assert c.pc.Fetch? || c.pc.Save?;
    }
  }

  /** With its loss recorded, the fold leaves the input where the projection stopped. */
  lemma LossFolds(rules: Rules, base: System, c: Consumer, i: Input)
    requires c.pc in {Marked, MembersDone} && Underway(base, c, i)
    ensures c.sys == Fold1(rules, WithLoss(c.losses, IdOf(i), LossOf(rules, c, i)), base, Message(i))
  {
    FoldedInput(rules, WithLoss(c.losses, IdOf(i), LossOf(rules, c, i)), base, i);
  }

  lemma UnansweredChangeKeepsInv(rules: Rules, log: Log, c: Consumer, i: Input)
    requires ValidLog(log) && Inv(rules, log, c) && c.pc == Marked && log.records[c.offset] == Message(i) && i.Rev?
    ensures Inv(rules, log, Drop(c.(sys := MembersEffect(c.sys, i))))
  {
    FoldedInput(rules, c.losses, Fold(rules, c.losses, Settled(log, c)), i);
    ConcludeKeepsInv(rules, log, c, c.(sys := MembersEffect(c.sys, i)), None);
  }

  lemma UnansweredMarkKeepsInv(rules: Rules, log: Log, c: Consumer, i: Input)
    requires ValidLog(log) && Inv(rules, log, c) && c.pc == Fetch && c.offset < |log.records| &&
        log.records[c.offset] == Message(i)
    requires IdOf(i) !in c.sys.graph.applied
    ensures Inv(rules, log, Abandon(rules, c.(attempts := c.attempts + 1, sys := MarkInput(c.sys, i), pc := Marked), i))
  {
    AttemptKeepsInv(rules, log, c);
    var marked := NewlyMarked(log, c, i);
    AbandonAt(rules, log, marked, i);
  }

  lemma NewlyMarked(log: Log, c: Consumer, i: Input) returns (marked: Consumer)
    requires c.pc == Fetch && c.offset < |log.records| && log.records[c.offset] == Message(i)
    requires IdOf(i) !in c.sys.graph.applied
    ensures marked == TryRecord(log, c) == c.(attempts := c.attempts + 1, sys := MarkInput(c.sys, i), pc := Marked)
    ensures MidProjection(log, marked)
  {
    marked := TryRecord(log, c);
  }

  lemma UnansweredKeepsInv(rules: Rules, log: Log, c: Consumer)
    requires ValidLog(log) && Inv(rules, log, c)
    ensures Inv(rules, log, LoseAnswer(rules, log, c))
  {
    if AtMessage(log, c) {
      var i := log.records[c.offset].input;
      match c.pc
      case Fetch => UnansweredFetchKeepsInv(rules, log, c, i);
      case Marked => UnansweredMembersKeepsInv(rules, log, c, i);
      case MembersDone => UnansweredGraphKeepsInv(rules, log, c);
      case Save =>
    }
  }

  lemma UnansweredGraphKeepsInv(rules: Rules, log: Log, c: Consumer)
    requires ValidLog(log) && Inv(rules, log, c) && c.pc == MembersDone && AtMessage(log, c)
    ensures Inv(rules, log, LoseAnswer(rules, log, c))
  {
    ApplyKeepsInv(rules, log, c);
  }

  lemma UnansweredFetchKeepsInv(rules: Rules, log: Log, c: Consumer, i: Input)
    requires ValidLog(log) && Inv(rules, log, c) && c.pc == Fetch && AtMessage(log, c)
    requires i == log.records[c.offset].input
    ensures Inv(rules, log, LoseAnswer(rules, log, c))
  {
    LoseAtFetch(rules, log, c, i);
    if IdOf(i) !in c.sys.graph.applied {
      UnansweredMarkKeepsInv(rules, log, c, i);
    }
  }

  lemma LoseAtFetch(rules: Rules, log: Log, c: Consumer, i: Input)
    requires c.pc == Fetch && AtMessage(log, c) && i == log.records[c.offset].input
    ensures LoseAnswer(rules, log, c) == if IdOf(i) in c.sys.graph.applied then c
        else Abandon(rules, c.(attempts := c.attempts + 1, sys := MarkInput(c.sys, i), pc := Marked), i)
  {
  }

  lemma UnansweredMembersKeepsInv(rules: Rules, log: Log, c: Consumer, i: Input)
    requires ValidLog(log) && Inv(rules, log, c) && c.pc == Marked && AtMessage(log, c)
    requires i == log.records[c.offset].input
    ensures Inv(rules, log, LoseAnswer(rules, log, c))
  {
    if i.Rev? {
      UnansweredChangeKeepsInv(rules, log, c, i);
    } else {
      ChangeKeepsInv(rules, log, c);
    }
  }

  lemma RewindKeepsInv(rules: Rules, log: Log, c: Consumer)
    requires ValidLog(log) && Inv(rules, log, c) && c.pc in {Fetch, Save}
    ensures Inv(rules, log, c.(offset := StartOffset(log, c.saved), pc := Fetch, attempts := 0))
  {
  }

  lemma {:induction false} RunKeepsInv(rules: Rules, log: Log, labels: seq<Label>)
    requires ValidLog(log)
    ensures Inv(rules, log, RunSteps(rules, log, labels))
  {
    if labels != [] {
      RunKeepsInv(rules, log, labels[..|labels| - 1]);
      StepKeepsInv(rules, log, RunSteps(rules, log, labels[..|labels| - 1]), labels[|labels| - 1]);
    }
  }

  // --- What every run guarantees -----------------------------------------------------------

  /** Neither the session's offset nor the saved one ever passes a record whose id has not been recorded. */
  lemma OffsetsNeverPassUnhandled(rules: Rules, log: Log, labels: seq<Label>, j: nat)
    requires ValidLog(log)
    ensures var c := RunSteps(rules, log, labels);
            c.offset <= |log.records| && StartOffset(log, c.saved) <= |log.records| &&
            (log.earliest <= j < Max(c.offset, StartOffset(log, c.saved)) && log.records[j].Message? ==>
              IdOf(log.records[j].input) in c.sys.graph.applied)
  {
    RunKeepsInv(rules, log, labels);
    var c := RunSteps(rules, log, labels);
    if log.earliest <= j < c.decided && log.records[j].Message? {
      SettledIsMarked(rules, log, c, j);
    }
  }

  lemma UnderwayMarks(base: System, c: Consumer, i: Input)
    requires c.pc in {Marked, MembersDone} && Underway(base, c, i)
    ensures base.graph.applied <= c.sys.graph.applied
  {
  }

  lemma SettledIsMarked(rules: Rules, log: Log, c: Consumer, j: nat)
    requires Inv(rules, log, c) && log.earliest <= j < c.decided && log.records[j].Message?
    ensures IdOf(log.records[j].input) in c.sys.graph.applied
  {
    assert Settled(log, c)[j - log.earliest] == log.records[j];
    FoldMarks(rules, c.losses, Settled(log, c), log.records[j]);
    if MidProjection(log, c) {
      UnderwayMarks(Fold(rules, c.losses, Settled(log, c)), c, log.records[c.offset].input);
    } else {
      assert c.pc.Fetch? || c.pc.Save?;
    }
  }

  /**
   * The steps that leave something out for good: a crash, or an error that ends the projection, when something was
   * left to change; a swallowed membership failure when the change would have had an effect; and a mark that is
   * recorded but reported as failed, again when there was something to do.
   */
  predicate LeavesOut(rules: Rules, log: Log, c: Consumer, l: Label) {
    AtMessage(log, c) &&
    var i := log.records[c.offset].input;
    match l
    case Crash => c.pc in {Marked, MembersDone} && Finished(rules, c, i) != c.sys
    case StoreFails => Calling(rules, log, c) && Finished(rules, c, i) != c.sys
    case MembersFail => c.pc == Marked && i.Ev? && MembersEffect(c.sys, i) != c.sys
    case Unanswered =>
      c.pc == Fetch && IdOf(i) !in c.sys.graph.applied && Effect(rules, MarkInput(c.sys, i), i) != MarkInput(c.sys, i)
    case _ => false
  }

  ghost predicate NothingLeftOut(rules: Rules, log: Log, labels: seq<Label>) {
    forall n :: 0 <= n < |labels| ==> !LeavesOutAt(rules, log, labels, n)
  }

  ghost predicate LeavesOutAt(rules: Rules, log: Log, labels: seq<Label>, n: nat)
    requires n < |labels|
  {
    LeavesOut(rules, log, RunSteps(rules, log, labels[..n]), labels[n])
  }

  lemma EffectInTwoSteps(rules: Rules, s: System, i: Input)
    ensures Effect(rules, s, i) == GraphEffect(rules, MembersEffect(s, i), i)
  {
  }

  lemma StepLosesIff(rules: Rules, log: Log, c: Consumer, l: Label) returns (c': Consumer)
    requires ValidLog(log) && Inv(rules, log, c)
    ensures c' == Step(rules, log, c, l)
    ensures c'.losses == map[] <==> c.losses == map[] && !LeavesOut(rules, log, c, l)
  {
    c' := Step(rules, log, c, l);
    StepKeepsLosses(rules, log, c, l);
    if AtMessage(log, c) {
      var i := log.records[c.offset].input;
      match l
      case Crash => AbandonLoses(rules, c, i);
      case StoreFails => AbandonLoses(rules, c, i);
      case MembersFail => SkipLoses(log, c);
      case Unanswered => UnansweredLoses(rules, log, c);
      case _ =>
    }
  }

  lemma SkipLoses(log: Log, c: Consumer)
    requires AtMessage(log, c)
    ensures var i := log.records[c.offset].input;
            if c.pc == Marked && i.Ev? && MembersEffect(c.sys, i) != c.sys then SkipMembers(log, c).losses != map[]
            else SkipMembers(log, c).losses == c.losses
  {
    assert IdOf(log.records[c.offset].input) in c.losses[IdOf(log.records[c.offset].input) := GraphOnly];
  }

  lemma UnansweredLoses(rules: Rules, log: Log, c: Consumer)
    requires AtMessage(log, c)
    ensures if LeavesOut(rules, log, c, Unanswered) then LoseAnswer(rules, log, c).losses != map[]
            else LoseAnswer(rules, log, c).losses == c.losses
  {
    var i := log.records[c.offset].input;
    if c.pc == Fetch && IdOf(i) !in c.sys.graph.applied {
      EffectInTwoSteps(rules, MarkInput(c.sys, i), i);
      AbandonLoses(rules, c.(attempts := c.attempts + 1, sys := MarkInput(c.sys, i), pc := Marked), i);
    }
  }

  lemma AbandonLoses(rules: Rules, c: Consumer, i: Input)
    ensures if Finished(rules, c, i) == c.sys then Abandon(rules, c, i).losses == c.losses
            else IdOf(i) in Abandon(rules, c, i).losses && Abandon(rules, c, i).losses != map[]
  {
    assert Finished(rules, c, i) != c.sys ==> IdOf(i) in Abandon(rules, c, i).losses;
  }

  lemma StepKeepsLosses(rules: Rules, log: Log, c: Consumer, l: Label)
    ensures c.losses != map[] ==> Step(rules, log, c, l).losses != map[]
  {
    if id :| id in c.losses {
      assert id in Step(rules, log, c, l).losses;
    }
  }

  lemma StepAt(rules: Rules, log: Log, labels: seq<Label>, n: nat)
    requires n < |labels|
    ensures RunSteps(rules, log, labels[..n + 1]) == Step(rules, log, RunSteps(rules, log, labels[..n]), labels[n])
  {
    assert labels[..n + 1][..n] == labels[..n];
  }

  ghost predicate NothingLeftOutUpTo(rules: Rules, log: Log, labels: seq<Label>, n: nat)
    requires n <= |labels|
  {
    forall k :: 0 <= k < n ==> !LeavesOutAt(rules, log, labels, k)
  }

  lemma {:induction false} NothingLostUpTo(rules: Rules, log: Log, labels: seq<Label>, n: nat)
    requires ValidLog(log) && n <= |labels|
    ensures RunSteps(rules, log, labels[..n]).losses == map[] <==> NothingLeftOutUpTo(rules, log, labels, n)
  {
    if n > 0 {
      NothingLostUpTo(rules, log, labels, n - 1);
      OneStepLoses(rules, log, labels, n - 1);
      OneStepMore(rules, log, labels, n - 1);
    }
  }

  lemma OneStepMore(rules: Rules, log: Log, labels: seq<Label>, n: nat)
    requires n < |labels|
    ensures NothingLeftOutUpTo(rules, log, labels, n + 1) <==>
              NothingLeftOutUpTo(rules, log, labels, n) && !LeavesOutAt(rules, log, labels, n)
  {
  }

  lemma OneStepLoses(rules: Rules, log: Log, labels: seq<Label>, n: nat)
    requires ValidLog(log) && n < |labels|
    ensures RunSteps(rules, log, labels[..n + 1]).losses == map[] <==>
              RunSteps(rules, log, labels[..n]).losses == map[] && !LeavesOutAt(rules, log, labels, n)
  {
    RunKeepsInv(rules, log, labels[..n]);
    StepAt(rules, log, labels, n);
    var c' := StepLosesIff(rules, log, RunSteps(rules, log, labels[..n]), labels[n]);
  }

  /**
   * An effect is lost exactly when some step left it out; crashes before, after or between projections lose nothing.
   */
  lemma NothingLostIff(rules: Rules, log: Log, labels: seq<Label>)
    requires ValidLog(log)
    ensures RunSteps(rules, log, labels).losses == map[] <==> NothingLeftOut(rules, log, labels)
  {
    NothingLostUpTo(rules, log, labels, |labels|);
    assert labels[..|labels|] == labels;
  }

  /** Between two records, graph and membership are those of one uninterrupted pass over the settled records. */
  ghost predicate OnePass(rules: Rules, log: Log, c: Consumer)
    requires Placed(log, c)
  {
    c.pc in {Fetch, Save} ==> c.sys == Run(rules, EmptySystem, Inputs(Settled(log, c)))
  }

  ghost predicate OnePassAt(rules: Rules, log: Log, labels: seq<Label>, n: nat)
    requires ValidLog(log) && n <= |labels|
  {
    RunKeepsInv(rules, log, labels[..n]);
    OnePass(rules, log, RunSteps(rules, log, labels[..n]))
  }

  ghost predicate AlwaysOnePass(rules: Rules, log: Log, labels: seq<Label>)
    requires ValidLog(log)
  {
    forall n :: 0 <= n <= |labels| ==> OnePassAt(rules, log, labels, n)
  }

  lemma LosslessPass(rules: Rules, log: Log, labels: seq<Label>)
    requires ValidLog(log) && RunSteps(rules, log, labels).losses == map[]
    ensures Placed(log, RunSteps(rules, log, labels)) && OnePass(rules, log, RunSteps(rules, log, labels))
  {
    RunKeepsInv(rules, log, labels);
    FoldWithoutLosses(rules, Settled(log, RunSteps(rules, log, labels)));
  }

  /**
   * A run with crashes and failures that left nothing out leaves graph and membership as one uninterrupted pass over
   * the log.
   */
  lemma CrashesUnnoticed(rules: Rules, log: Log, labels: seq<Label>)
    requires ValidLog(log) && NothingLeftOut(rules, log, labels)
    ensures var c := RunSteps(rules, log, labels);
            c.pc in {Fetch, Save} ==>
              log.earliest <= c.offset <= c.decided <= |log.records| &&
              c.sys == Run(rules, EmptySystem, Inputs(log.records[log.earliest..c.decided]))
  {
    NothingLostIff(rules, log, labels);
    LosslessPass(rules, log, labels);
  }

  /** One pass over the settled records and the current one. */
  lemma OneRecordMore(rules: Rules, log: Log, c: Consumer)
    requires ValidLog(log) && Placed(log, c) && c.offset == c.decided && AtMessage(log, c)
    ensures Run(rules, EmptySystem, Inputs(log.records[log.earliest..c.decided + 1])) ==
            Project(rules, Run(rules, EmptySystem, Inputs(Settled(log, c))), log.records[c.offset].input)
  {
    var ps := log.records[log.earliest..c.decided + 1];
    assert ps[..|ps| - 1] == Settled(log, c) && ps[|ps| - 1] == log.records[c.offset];
    InputsLast(ps);
    RunLast(rules, EmptySystem, Inputs(Settled(log, c)), log.records[c.offset].input);
  }

  /** Where the system stands within a run that has lost nothing so far. */
  lemma LosslessState(rules: Rules, log: Log, c: Consumer)
    requires ValidLog(log) && Inv(rules, log, c) && c.losses == map[]
    ensures var base := Run(rules, EmptySystem, Inputs(Settled(log, c)));
            if c.pc.Fetch? || c.pc.Save? then c.sys == base
            else IdOf(log.records[c.offset].input) !in base.graph.applied &&
                 var marked := MarkInput(base, log.records[c.offset].input);
                 c.sys == if c.pc == Marked then marked else MembersEffect(marked, log.records[c.offset].input)
  {
    FoldWithoutLosses(rules, Settled(log, c));
  }

  /** A crash or an error that ends a projection with something left to do shows in the state at once. */
  lemma AbandonShows(rules: Rules, log: Log, c: Consumer)
    requires ValidLog(log) && Inv(rules, log, c) && c.losses == map[] && MidProjection(log, c)
    requires Finished(rules, c, log.records[c.offset].input) != c.sys
    ensures c.sys != Run(rules, EmptySystem, Inputs(log.records[log.earliest..c.decided + 1]))
  {
    var i := log.records[c.offset].input;
    LosslessState(rules, log, c);
    OneRecordMore(rules, log, c);
    EffectInTwoSteps(rules, MarkInput(Run(rules, EmptySystem, Inputs(Settled(log, c))), i), i);
  }

  /** So does a mark that is recorded and reported as failed. */
  lemma UnansweredShows(rules: Rules, log: Log, c: Consumer)
    requires ValidLog(log) && Inv(rules, log, c) && c.losses == map[] && LeavesOut(rules, log, c, Unanswered)
    ensures var c' := Step(rules, log, c, Unanswered);
            c'.pc == Fetch && c'.decided == c.decided + 1 <= |log.records| &&
            c'.sys != Run(rules, EmptySystem, Inputs(log.records[log.earliest..c.decided + 1]))
  {
    AtFrontier(rules, log, c);
    LosslessState(rules, log, c);
    OneRecordMore(rules, log, c);
  }

  /** A record whose id is not recorded yet is the first one that is not settled. */
  lemma AtFrontier(rules: Rules, log: Log, c: Consumer)
    requires ValidLog(log) && Inv(rules, log, c) && AtMessage(log, c)
    requires IdOf(log.records[c.offset].input) !in c.sys.graph.applied
    ensures c.offset == c.decided
  {
    if c.offset < c.decided {
      SettledIsMarked(rules, log, c, c.offset);
    }
  }

  /** The members the current event should leave are not those the system goes on with. */
  ghost predicate MembersMissing(rules: Rules, log: Log, c: Consumer) {
    && ValidLog(log) && Placed(log, c) && c.pc == MembersDone && log.records[c.offset].input.Ev?
    && OtherMembersAfter(rules, log, c.decided, c.sys)
  }

  /** The pass up to and with this record has other members. */
  ghost predicate OtherMembersAfter(rules: Rules, log: Log, at: nat, s: System)
    requires log.earliest <= at < |log.records|
  {
    Run(rules, EmptySystem, Inputs(log.records[log.earliest..at + 1])).members != s.members
  }

  /** Between two records and not where one pass would be. */
  ghost predicate Shows(rules: Rules, log: Log, c: Consumer) {
    ValidLog(log) && Placed(log, c) && !OnePass(rules, log, c)
  }

  /** The members after an event do not depend on what it does to the graph. */
  lemma ProjectMembers(rules: Rules, s: System, e: Event)
    requires IdOf(Ev(e)) !in s.graph.applied
    ensures Project(rules, s, Ev(e)).members == MembersEffect(MarkInput(s, Ev(e)), Ev(e)).members
  {
  }

  lemma OtherMembers(s: System, e: Event)
    ensures MembersEffect(s, Ev(e)) != s ==> MembersEffect(s, Ev(e)).members != s.members
  {
  }

  lemma MissingMembers(rules: Rules, base: System, e: Event)
    requires IdOf(Ev(e)) !in base.graph.applied &&
        MembersEffect(MarkInput(base, Ev(e)), Ev(e)) != MarkInput(base, Ev(e))
    ensures Project(rules, base, Ev(e)).members != MarkInput(base, Ev(e)).members
  {
    ProjectMembers(rules, base, e);
    OtherMembers(MarkInput(base, Ev(e)), e);
  }

  lemma MissingAfter(rules: Rules, log: Log, c: Consumer)
    requires ValidLog(log) && Inv(rules, log, c) && c.losses == map[] && c.pc == Marked
    requires log.records[c.offset].input.Ev? && MembersEffect(c.sys, log.records[c.offset].input) != c.sys
    ensures OtherMembersAfter(rules, log, c.decided, c.sys)
  {
    LosslessState(rules, log, c);
    OneRecordMore(rules, log, c);
    MissingMembers(rules, Run(rules, EmptySystem, Inputs(Settled(log, c))), log.records[c.offset].input.event);
  }

  lemma SkippedTo(rules: Rules, log: Log, c: Consumer) returns (c': Consumer)
    requires LeavesOut(rules, log, c, MembersFail)
    ensures c' == Step(rules, log, c, MembersFail) == c.(pc := MembersDone, losses := c'.losses)
  {
    c' := Step(rules, log, c, MembersFail);
  }

  lemma MissingFrom(rules: Rules, log: Log, c: Consumer, c': Consumer)
    requires ValidLog(log) && Placed(log, c) && c.pc == Marked && c' == c.(pc := MembersDone, losses := c'.losses)
    requires log.records[c.offset].input.Ev? && OtherMembersAfter(rules, log, c.decided, c.sys)
    ensures MembersMissing(rules, log, c')
  {
  }

  lemma SkipHides(rules: Rules, log: Log, c: Consumer) returns (c': Consumer)
    requires ValidLog(log) && Inv(rules, log, c) && c.losses == map[] && LeavesOut(rules, log, c, MembersFail)
    ensures c' == Step(rules, log, c, MembersFail) && MembersMissing(rules, log, c')
  {
    MissingAfter(rules, log, c);
    c' := SkippedTo(rules, log, c);
    MissingFrom(rules, log, c, c');
  }

  /** The projection of the current record is over. */
  ghost predicate Ends(c: Consumer, c': Consumer) {
    c'.pc in {Fetch, Save} && c'.decided == c.decided + 1
  }

  /** Any other step that leaves something out ends the projection in the wrong state. */
  lemma OtherLossEnds(rules: Rules, log: Log, c: Consumer, l: Label) returns (c': Consumer)
    requires ValidLog(log) && Inv(rules, log, c) && c.losses == map[] && LeavesOut(rules, log, c, l) && l != MembersFail
    ensures c' == Step(rules, log, c, l) && Ends(c, c')
    ensures c.decided < |log.records| &&
        c'.sys != Run(rules, EmptySystem, Inputs(log.records[log.earliest..c.decided + 1]))
  {
    c' := Step(rules, log, c, l);
    if l == Unanswered {
      UnansweredShows(rules, log, c);
    } else {
      AbandonShows(rules, log, c);
    }
  }

  lemma WrongShows(rules: Rules, log: Log, c: Consumer, c': Consumer)
    requires ValidLog(log) && Placed(log, c) && Placed(log, c') && Ends(c, c')
    requires c'.sys != Run(rules, EmptySystem, Inputs(log.records[log.earliest..c.decided + 1]))
    ensures Shows(rules, log, c')
  {
  }

  /** What a step that leaves something out does to the state, at once or when the projection is over. */
  lemma LeftOutStep(rules: Rules, log: Log, c: Consumer, l: Label) returns (c': Consumer)
    requires ValidLog(log) && Inv(rules, log, c) && c.losses == map[] && LeavesOut(rules, log, c, l)
    ensures c' == Step(rules, log, c, l) && (MembersMissing(rules, log, c') || Shows(rules, log, c'))
  {
    if l == MembersFail {
      c' := SkipHides(rules, log, c);
    } else {
      c' := OtherLossEnds(rules, log, c, l);
      StepKeepsInv(rules, log, c, l);
      WrongShows(rules, log, c, c');
    }
  }

  lemma MissingEnds(rules: Rules, log: Log, c: Consumer, l: Label) returns (c': Consumer)
    requires MembersMissing(rules, log, c)
    ensures c' == Step(rules, log, c, l)
    ensures c' == c || (Placed(log, c') && Ends(c, c') && c'.sys.members == c.sys.members)
  {
    c' := Step(rules, log, c, l);
  }

  lemma StillOther(rules: Rules, log: Log, at: nat, s: System, t: System)
    requires log.earliest <= at < |log.records| && OtherMembersAfter(rules, log, at, s) && t.members == s.members
    ensures t != Run(rules, EmptySystem, Inputs(log.records[log.earliest..at + 1]))
  {
  }

  lemma EndedMissing(rules: Rules, log: Log, c: Consumer, c': Consumer)
    requires MembersMissing(rules, log, c) && Placed(log, c') && Ends(c, c') && c'.sys.members == c.sys.members
    ensures Shows(rules, log, c')
  {
    StillOther(rules, log, c.decided, c.sys, c'.sys);
    WrongShows(rules, log, c, c');
  }

  /** Once the projection goes on or ends, the missing change shows. */
  lemma MissingStep(rules: Rules, log: Log, c: Consumer, l: Label) returns (c': Consumer)
    requires MembersMissing(rules, log, c)
    ensures c' == Step(rules, log, c, l) && (c' == c || Shows(rules, log, c'))
  {
    c' := MissingEnds(rules, log, c, l);
    if c' != c {
      EndedMissing(rules, log, c, c');
    }
  }

  lemma ShowsAt(rules: Rules, log: Log, labels: seq<Label>, n: nat)
    requires ValidLog(log) && n <= |labels| && Shows(rules, log, RunSteps(rules, log, labels[..n]))
    ensures !AlwaysOnePass(rules, log, labels)
  {
    assert !OnePassAt(rules, log, labels, n);
  }

  lemma {:induction false} MissingShows(rules: Rules, log: Log, labels: seq<Label>, n: nat, c: Consumer)
    requires n <= |labels| && RunSteps(rules, log, labels[..n]) == c && MembersMissing(rules, log, c)
    requires RunSteps(rules, log, labels).pc in {Fetch, Save}
    ensures !AlwaysOnePass(rules, log, labels)
    decreases |labels| - n
  {
    assert labels[..|labels|] == labels && n < |labels|;
    StepAt(rules, log, labels, n);
    var c' := MissingStep(rules, log, c, labels[n]);
    if c' == c {
      MissingShows(rules, log, labels, n + 1, c);
    } else {
      ShowsAt(rules, log, labels, n + 1);
    }
  }

  /** The state after the first step that leaves something out. */
  lemma FirstLoss(rules: Rules, log: Log, labels: seq<Label>, n: nat)
    requires ValidLog(log) && n < |labels| && LeavesOutAt(rules, log, labels, n)
    requires forall k :: 0 <= k < n ==> !LeavesOutAt(rules, log, labels, k)
    ensures var c := RunSteps(rules, log, labels[..n + 1]); MembersMissing(rules, log, c) || Shows(rules, log, c)
  {
    NothingLostUpTo(rules, log, labels, n);
    RunKeepsInv(rules, log, labels[..n]);
    StepAt(rules, log, labels, n);
    var _ := LeftOutStep(rules, log, RunSteps(rules, log, labels[..n]), labels[n]);
  }

  /** The first step that leaves something out shows, at once or when the projection is over. */
  lemma {:induction false} LossShows(rules: Rules, log: Log, labels: seq<Label>, n: nat)
    requires ValidLog(log) && n < |labels| && LeavesOutAt(rules, log, labels, n)
    requires RunSteps(rules, log, labels).pc in {Fetch, Save}
    ensures !AlwaysOnePass(rules, log, labels)
  {
    if k :| 0 <= k < n && LeavesOutAt(rules, log, labels, k) {
      LossShows(rules, log, labels, k);
    } else {
      FirstLoss(rules, log, labels, n);
      if Shows(rules, log, RunSteps(rules, log, labels[..n + 1])) {
        ShowsAt(rules, log, labels, n + 1);
      } else {
        MissingShows(rules, log, labels, n + 1, RunSteps(rules, log, labels[..n + 1]));
      }
    }
  }

  /**
   * Whenever a run stands between two records, graph and membership are those of one uninterrupted pass over the
   * settled records, exactly when no step of the run left something out. Crashes and errors at other moments do not
   * show.
   */
  lemma AlwaysOnePassIff(rules: Rules, log: Log, labels: seq<Label>)
    requires ValidLog(log) && RunSteps(rules, log, labels).pc in {Fetch, Save}
    ensures AlwaysOnePass(rules, log, labels) <==> NothingLeftOut(rules, log, labels)
  {
    if NothingLeftOut(rules, log, labels) {
      forall n | 0 <= n <= |labels| ensures OnePassAt(rules, log, labels, n) {
        NothingLostUpTo(rules, log, labels, n);
        LosslessPass(rules, log, labels[..n]);
      }
    } else {
      var n :| 0 <= n < |labels| && LeavesOutAt(rules, log, labels, n);
      LossShows(rules, log, labels, n);
    }
  }

  /** With losses, the state is still the same pass, only with the lost effects left out. */
  lemma LossesAreExact(rules: Rules, log: Log, labels: seq<Label>)
    requires ValidLog(log)
    ensures var c := RunSteps(rules, log, labels);
            c.pc in {Fetch, Save} ==>
              c.decided <= |log.records| && log.earliest <= c.decided &&
              c.sys == Fold(rules, c.losses, log.records[log.earliest..c.decided])
  {
    RunKeepsInv(rules, log, labels);
  }

  /** At most two attempts in a session; the second one passes the record, because its id is already recorded. */
  ghost predicate AttemptsOk(log: Log, c: Consumer) {
    && c.attempts <= 2 && (c.attempts == 2 ==> c.pc == Save)
    && (c.pc == Fetch && c.attempts == 1 ==>
        AtMessage(log, c) && IdOf(log.records[c.offset].input) in c.sys.graph.applied)
    && (c.pc in {Marked, MembersDone} ==> c.attempts == 1)
  }

  /** Unless recording an id fails, the second attempt at a record always passes it. */
  lemma {:induction false} TwoAttemptsSuffice(rules: Rules, log: Log, labels: seq<Label>)
    requires ValidLog(log) && MarkFails !in labels
    ensures AttemptsOk(log, RunSteps(rules, log, labels))
  {
    if labels != [] {
      var init := labels[..|labels| - 1];
      assert forall l :: l in init ==> l in labels;
      TwoAttemptsSuffice(rules, log, init);
      RunKeepsInv(rules, log, init);
      assert labels[|labels| - 1] in labels;
      AttemptsStep(rules, log, RunSteps(rules, log, init), labels[|labels| - 1]);
    }
  }

  lemma AttemptsStep(rules: Rules, log: Log, c: Consumer, l: Label)
    requires Placed(log, c) && AttemptsOk(log, c) && l != MarkFails
    requires c.pc in {Marked, MembersDone} ==> IdOf(log.records[c.offset].input) in c.sys.graph.applied
    ensures AttemptsOk(log, Step(rules, log, c, l))
  {
  }

  lemma OneStep(rules: Rules, log: Log, labels: seq<Label>, l: Label, c: Consumer)
    requires RunSteps(rules, log, labels) == c
    ensures RunSteps(rules, log, labels + [l]) == Step(rules, log, c, l)
  {
    assert (labels + [l])[..|labels|] == labels;
  }

  /** A log of one record, and where the consumer stands once its id is recorded. */
  function OneRecord(i: Input): Log {
    Log([Message(i)], 0)
  }

  lemma AfterMark(rules: Rules, i: Input)
    ensures RunSteps(rules, OneRecord(i), [Attempt]) == Consumer(MarkInput(EmptySystem, i), None, 0, Marked, 1, 0,
        map[])
  {
    var none: seq<Label> := [];
    assert [Attempt] == none + [Attempt];
    OneStep(rules, OneRecord(i), none, Attempt, Initial(OneRecord(i)));
  }

  lemma CrashAfterMark(rules: Rules, i: Input)
    ensures var c := RunSteps(rules, OneRecord(i), [Attempt] + [Crash]);
            c.sys == MarkInput(EmptySystem, i) && c.offset == 0 && c.pc == Fetch && c.saved == None
  {
    AfterMark(rules, i);
    OneStep(rules, OneRecord(i), [Attempt], Crash, RunSteps(rules, OneRecord(i), [Attempt]));
  }

  lemma SecondAttempt(rules: Rules, i: Input, c: Consumer) returns (c': Consumer)
    requires c.pc == Fetch && c.offset == 0 && IdOf(i) in c.sys.graph.applied
    ensures c' == Step(rules, OneRecord(i), c, Attempt) && c'.sys == c.sys && c'.offset == 1 && c'.pc == Save
  {
    c' := Step(rules, OneRecord(i), c, Attempt);
  }

  /**
   * A crash right after recording an id loses the record: the consumer moves past it, and the result is right only if
   * it had no effect.
   */
  lemma CrashAfterMarkLosesEffect(rules: Rules, i: Input)
    ensures var c := RunSteps(rules, OneRecord(i), [Attempt] + [Crash] + [Attempt] + [SaveOffset]);
            c.saved == Some(1) && c.offset == 1 && c.pc == Fetch && c.sys == MarkInput(EmptySystem, i) &&
            (c.sys == Run(rules, EmptySystem, [i]) <==>
                Effect(rules, MarkInput(EmptySystem, i), i) == MarkInput(EmptySystem, i))
  {
    AfterMark(rules, i);
    RunOne(rules, EmptySystem, i);
    CrashAfterMark(rules, i);
    var log := OneRecord(i);
    var c2 := RunSteps(rules, log, [Attempt] + [Crash]);
    OneStep(rules, log, [Attempt] + [Crash], Attempt, c2);
    var c3 := SecondAttempt(rules, i, c2);
    OneStep(rules, log, [Attempt] + [Crash] + [Attempt], SaveOffset, c3);
  }

  /** A membership change that fails for an event is lost although nothing is interrupted and the offset moves on. */
  lemma SwallowedFailureLosesMembership(rules: Rules, e: Event)
    ensures var i := Ev(e);
            var c := RunSteps(rules, OneRecord(i), [Attempt] + [MembersFail] + [ApplyGraph] + [SaveOffset]);
            c.saved == Some(1) && c.sys == GraphEffect(rules, MarkInput(EmptySystem, i), i) && c.sys.members == map[] &&
            (c.sys == Run(rules, EmptySystem, [i]) <==>
                MembersEffect(MarkInput(EmptySystem, i), i) == MarkInput(EmptySystem, i))
  {
    var i := Ev(e);
    RunOne(rules, EmptySystem, i);
    EffectInTwoSteps(rules, MarkInput(EmptySystem, i), i);
    var c := AfterSkippedMembers(rules, e);
    OneStep(rules, OneRecord(i), [Attempt] + [MembersFail] + [ApplyGraph], SaveOffset, c);
  }

  lemma AfterSkippedMembers(rules: Rules, e: Event) returns (c: Consumer)
    ensures c == RunSteps(rules, OneRecord(Ev(e)), [Attempt] + [MembersFail] + [ApplyGraph])
    ensures c.sys == GraphEffect(rules, MarkInput(EmptySystem, Ev(e)), Ev(e)) && c.offset == 1 && c.pc == Save
  {
    var log, c1 := OneRecord(Ev(e)), RunSteps(rules, OneRecord(Ev(e)), [Attempt]);
    AfterMark(rules, Ev(e));
    OneStep(rules, log, [Attempt], MembersFail, c1);
    var c2 := MembersSkipped(rules, e, c1);
    OneStep(rules, log, [Attempt] + [MembersFail], ApplyGraph, c2);
    c := GraphApplied(rules, e, c2);
  }

  lemma MembersSkipped(rules: Rules, e: Event, c: Consumer) returns (c': Consumer)
    requires c.pc == Marked && c.offset == 0
    ensures c' == Step(rules, OneRecord(Ev(e)), c, MembersFail)
    ensures c'.sys == c.sys && c'.offset == 0 && c'.pc == MembersDone
  {
    c' := Step(rules, OneRecord(Ev(e)), c, MembersFail);
  }

  lemma GraphApplied(rules: Rules, e: Event, c: Consumer) returns (c': Consumer)
    requires c.pc == MembersDone && c.offset == 0
    ensures c' == Step(rules, OneRecord(Ev(e)), c, ApplyGraph)
    ensures c'.sys == GraphEffect(rules, c.sys, Ev(e)) && c'.offset == 1 && c'.pc == Save
  {
    c' := Step(rules, OneRecord(Ev(e)), c, ApplyGraph);
  }
}
