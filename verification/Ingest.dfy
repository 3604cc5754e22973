/** Concurrent webhook ingests over one claim table, one bus and one inline store, step by step. */
module Ingest {
  import opened GraphModel
  import opened Dedup
  import opened Numbers

  datatype Error = DeadLetterError | Infrastructure

  datatype Event = Event(eventId: string, tenantId: string, body: string)

  datatype Outcome = Accepted(event: Event) | Duplicate | DeadLettered | Failed(error: Error) | Cancelled

  /** What the next step of an ingest is. */
  datatype Phase =
    | Vault
    | Normalize
    | PublishAcl(event: Event)
    | PublishRaw(event: Event)
    | PublishTopic(event: Event)
    | Upsert(event: Event)
    | Releasing
    | Ended(outcome: Outcome)

  /** One request: its delivery id, the time its claim was tried, and where it stands. */
  datatype Request = Request(id: string, at: Instant, phase: Phase)

  /** `raw`, `acl` and `topic` are the bus logs with the request that appended each event. */
  datatype World = World(
    clock: Instant, claims: map<string, Instant>, requests: map<nat, Request>,
    raw: seq<(nat, Event)>, acl: seq<(nat, Event)>, topic: seq<(nat, Event)>, stored: seq<(nat, Event)>)

  const InitialWorld := World(0, map[], map[], [], [], [], [])

  /** The answers of the services are part of the labels; an ingest may be cancelled between any two steps. */
  datatype Label =
    | Tick(now: Instant)
    | Begin(request: nat, id: string)
    | Vaulted(request: nat)
    | Normalized(request: nat, result: Option<Event>, revokes: bool)
    | Call(request: nat, error: Option<Error>)
    | ReleaseClaim(request: nat)
    | Cancel(request: nat)

  datatype Config = Config(ttl: nat, inlineStore: bool)

  function Move(w: World, r: nat, p: Phase): World
    requires r in w.requests
  {
    w.(requests := w.requests[r := w.requests[r].(phase := p)])
  }

  function TryBegin(c: Config, w: World, r: nat, id: string): World {
    if r in w.requests then w
    else
      var granted := Grants(w.claims, c.ttl, id, w.clock);
      w.(claims := AfterClaim(w.claims, c.ttl, id, w.clock),
         requests := w.requests[r := Request(id, w.clock, if granted then Vault else Ended(Duplicate))])
  }

  /** The current call of the request succeeds or fails; a failed one releases the claim unless it dead-letters. */
  function Answer(c: Config, w: World, r: nat, error: Option<Error>): World
    requires r in w.requests
  {
    var p := w.requests[r].phase;
    if !(p.PublishAcl? || p.PublishRaw? || p.PublishTopic? || p.Upsert?) then w
    else if error.Some? then
      Move(w, r, if error.value.DeadLetterError? then Ended(Failed(DeadLetterError)) else Releasing)
    else
      match p
      case PublishAcl(e) => Move(w, r, PublishRaw(e)).(acl := w.acl + [(r, e)])
      case PublishRaw(e) => Move(w, r, PublishTopic(e)).(raw := w.raw + [(r, e)])
      case PublishTopic(e) =>
        Move(w, r, if c.inlineStore then Upsert(e) else Ended(Accepted(e))).(topic := w.topic + [(r, e)])
      case Upsert(e) => Move(w, r, Ended(Accepted(e))).(stored := w.stored + [(r, e)])
  }

  function Act(c: Config, w: World, l: Label): World {
    match l
    case Tick(now) => if now > w.clock then w.(clock := now) else w
    case Begin(r, id) => TryBegin(c, w, r, id)
    case Vaulted(r) => if At(w, r, Vault) then Move(w, r, Normalize) else w
    case Normalized(r, result, revokes) =>
      if !At(w, r, Normalize) then w
      else (match result
            case None => Move(w, r, Ended(DeadLettered))
            case Some(e) => Move(w, r, if revokes then PublishAcl(e) else PublishRaw(e)))
    case Call(r, error) => if r in w.requests then Answer(c, w, r, error) else w
    case ReleaseClaim(r) =>
      if IsReleasing(w, r) then
        Move(w, r, Ended(Failed(Infrastructure))).(claims := w.claims - {w.requests[r].id})
      else w
    case Cancel(r) =>
      if r in w.requests && !w.requests[r].phase.Ended? then Move(w, r, Ended(Cancelled)) else w
  }

  predicate At(w: World, r: nat, p: Phase) {
    r in w.requests && w.requests[r].phase == p
  }

  predicate IsReleasing(w: World, r: nat) {
    At(w, r, Releasing)
  }

  function RunFrom(c: Config, w: World, labels: seq<Label>): World {
    if labels == [] then w else Act(c, RunFrom(c, w, labels[..|labels| - 1]), labels[|labels| - 1])
  }

  function RunAll(c: Config, labels: seq<Label>): World {
    RunFrom(c, InitialWorld, labels)
  }

  // --- One outcome per delivery -----------------------------------------------------

  /** Requests that hold, or held to the end, the claim they were granted. */
  predicate Holding(w: World, r: nat) {
    r in w.requests && !At(w, r, Ended(Duplicate)) && !At(w, r, Ended(Failed(Infrastructure)))
  }

  predicate Processed(w: World, r: nat) {
    r in w.requests && w.requests[r].phase.Ended? &&
    (w.requests[r].phase.outcome.Accepted? || w.requests[r].phase.outcome.DeadLettered?)
  }

  predicate InProgress(p: Phase) {
    !p.Ended? && !p.Releasing?
  }

  /** Requests that were granted a claim and are, or still may be, processed. */
  predicate Viable(w: World, r: nat) {
    Processed(w, r) || (r in w.requests && InProgress(w.requests[r].phase))
  }

  /** The release would take the claim of a request that may yet be, or has been, processed, less than ttl old. */
  ghost predicate Robs(c: Config, w: World, r: nat, q: nat) {
    IsReleasing(w, r) && Viable(w, q) && w.requests[q].id == w.requests[r].id && w.clock - w.requests[q].at < c.ttl
  }

  ghost predicate RobsNobody(c: Config, w: World, l: Label) {
    l.ReleaseClaim? ==> forall q :: !Robs(c, w, l.request, q)
  }

  /** Every release finds no live claim but, at most, its own. */
  ghost predicate Considerate(c: Config, labels: seq<Label>) {
    forall k :: 0 <= k < |labels| ==> RobsNobody(c, RunAll(c, labels[..k]), labels[k])
  }

  function Apart(a: Instant, b: Instant): nat {
    if a < b then b - a else a - b
  }

  ghost predicate PastOnly(w: World) {
    forall r :: r in w.requests ==> w.requests[r].at <= w.clock
  }

  /** A live claim belongs to the request it was granted to. */
  ghost predicate ClaimsKept(c: Config, w: World) {
    forall r :: Viable(w, r) && w.clock - w.requests[r].at < c.ttl ==>
      w.requests[r].id in w.claims && w.claims[w.requests[r].id] == w.requests[r].at
  }

  ghost predicate ViableApart(c: Config, w: World) {
    forall r, q :: Viable(w, r) && Viable(w, q) && r != q && w.requests[r].id == w.requests[q].id ==>
      Apart(w.requests[r].at, w.requests[q].at) >= c.ttl
  }

  ghost predicate OneEach(c: Config, w: World) {
    PastOnly(w) && ClaimsKept(c, w) && ViableApart(c, w)
  }

  /** What every step but `Begin` does to the requests: none is new, and none becomes viable. */
  ghost predicate Follows(w: World, w': World) {
    w.clock <= w'.clock && w'.requests.Keys == w.requests.Keys &&
    (forall r :: r in w.requests ==> w'.requests[r].id == w.requests[r].id && w'.requests[r].at == w.requests[r].at) &&
    (forall r :: Viable(w', r) ==> Viable(w, r))
  }

  lemma AnswerFollows(c: Config, w: World, r: nat, error: Option<Error>)
    requires r in w.requests
    ensures Follows(w, Answer(c, w, r, error)) && Answer(c, w, r, error).claims == w.claims
  {
  }

  lemma ActFollows(c: Config, w: World, l: Label)
    requires !l.Begin?
    ensures Follows(w, Act(c, w, l))
    ensures Act(c, w, l).claims == if l.ReleaseClaim? && IsReleasing(w, l.request)
        then w.claims - {w.requests[l.request].id} else w.claims
  {
    if l.Call? && l.request in w.requests {
      AnswerFollows(c, w, l.request, l.error);
    }
  }

  lemma FollowKeepsOneEach(c: Config, w: World, w': World)
    requires OneEach(c, w) && Follows(w, w') && w'.claims == w.claims
    ensures OneEach(c, w')
  {
  }

  /** A release keeps the claims apart exactly when it takes nobody's live claim. */
  lemma ReleaseSafeIff(c: Config, w: World, r: nat)
    requires OneEach(c, w) && IsReleasing(w, r)
    ensures OneEach(c, Act(c, w, ReleaseClaim(r))) <==> RobsNobody(c, w, ReleaseClaim(r))
  {
    var w' := Act(c, w, ReleaseClaim(r));
    ActFollows(c, w, ReleaseClaim(r));
    forall q ensures Viable(w', q) <==> Viable(w, q) {
    }
    if q :| Robs(c, w, r, q) {
      assert Viable(w', q) && w'.requests[q].id !in w'.claims;
      assert !ClaimsKept(c, w');
    } else {
      forall q | Viable(w', q) && w'.clock - w'.requests[q].at < c.ttl
        ensures w'.requests[q].id in w'.claims && w'.claims[w'.requests[q].id] == w'.requests[q].at
      {
        assert Viable(w, q) && !Robs(c, w, r, q);
      }
    }
  }

  lemma BeginKeepsOneEach(c: Config, w: World, r: nat, id: string)
    requires OneEach(c, w) && r !in w.requests
    ensures OneEach(c, TryBegin(c, w, r, id))
  {
    var w' := TryBegin(c, w, r, id);
    assert forall q :: q != r && Viable(w', q) ==> Viable(w, q) && w'.requests[q] == w.requests[q];
    if Grants(w.claims, c.ttl, id, w.clock) {
      assert forall q :: Viable(w, q) && w.requests[q].id == id ==> w.clock - w.requests[q].at >= c.ttl;
    } else {
      assert !Viable(w', r);
    }
  }

  lemma ActKeepsOneEach(c: Config, w: World, l: Label)
    requires OneEach(c, w) && RobsNobody(c, w, l)
    ensures OneEach(c, Act(c, w, l))
  {
    if l.Begin? {
      if l.request !in w.requests {
        BeginKeepsOneEach(c, w, l.request, l.id);
      }
    } else if l.ReleaseClaim? && IsReleasing(w, l.request) {
      ReleaseSafeIff(c, w, l.request);
    } else {
      ActFollows(c, w, l);
      FollowKeepsOneEach(c, w, Act(c, w, l));
    }
  }

  lemma {:induction false} RunKeepsOneEach(c: Config, labels: seq<Label>)
    requires Considerate(c, labels)
    ensures OneEach(c, RunAll(c, labels))
  {
    if labels != [] {
      var init := labels[..|labels| - 1];
      assert forall k :: 0 <= k < |init| ==> init[..k] == labels[..k];
      RunKeepsOneEach(c, init);
      assert RobsNobody(c, RunAll(c, labels[..|labels| - 1]), labels[|labels| - 1]);
      ActKeepsOneEach(c, RunAll(c, init), labels[|labels| - 1]);
    }
  }

  /** However the ingests interleave, two that both process one delivery id claimed it at least ttl apart. */
  lemma OneOutcomePerWindow(c: Config, labels: seq<Label>, r: nat, q: nat)
    requires Considerate(c, labels) && r != q
    requires var w := RunAll(c, labels); Processed(w, r) && Processed(w, q) && w.requests[r].id == w.requests[q].id
    ensures var w := RunAll(c, labels); Apart(w.requests[r].at, w.requests[q].at) >= c.ttl
  {
    RunKeepsOneEach(c, labels);
  }

  // --- Failures free the id ---------------------------------------------------------

  /** Every claim on record has a holder: a request in progress, processed, cancelled or dead-lettered. */
  ghost predicate ClaimsHeld(w: World) {
    forall id :: id in w.claims ==> exists r :: HeldBy(w, id, w.claims[id], r)
  }

  ghost predicate HeldBy(w: World, id: string, at: Instant, r: nat) {
    Holding(w, r) && w.requests[r].id == id && w.requests[r].at == at
  }

  lemma HolderStays(c: Config, w: World, l: Label, id: string, at: Instant, r: nat)
    requires HeldBy(w, id, at, r) && !(l == ReleaseClaim(r) && IsReleasing(w, r))
    ensures HeldBy(Act(c, w, l), id, at, r)
  {
    if l.Begin? {
    } else {
      ActFollows(c, w, l);
    }
  }

  lemma ActKeepsClaimsHeld(c: Config, w: World, l: Label)
    requires ClaimsHeld(w)
    ensures ClaimsHeld(Act(c, w, l))
  {
    var w' := Act(c, w, l);
    if !l.Begin? {
      ActFollows(c, w, l);
    }
    forall id | id in w'.claims ensures exists r :: HeldBy(w', id, w'.claims[id], r) {
      if l.Begin? && l.request !in w.requests && l.id == id && Grants(w.claims, c.ttl, id, w.clock) {
        assert HeldBy(w', id, w'.claims[id], l.request);
      } else {
        var r :| HeldBy(w, id, w.claims[id], r);
        HolderStays(c, w, l, id, w.claims[id], r);
      }
    }
  }

  lemma {:induction false} RunKeepsClaimsHeld(c: Config, labels: seq<Label>)
    ensures ClaimsHeld(RunAll(c, labels))
  {
    if labels != [] {
      RunKeepsClaimsHeld(c, labels[..|labels| - 1]);
      ActKeepsClaimsHeld(c, RunAll(c, labels[..|labels| - 1]), labels[|labels| - 1]);
    }
  }

  /** A delivery is turned away only by another request of the same id that has not failed, less than ttl old. */
  lemma RefusedOnlyByHolder(c: Config, labels: seq<Label>, r: nat, id: string)
    requires var w := RunAll(c, labels); r !in w.requests && At(Act(c, w, Begin(r, id)), r, Ended(Duplicate))
    ensures var w := RunAll(c, labels);
            exists q :: Holding(w, q) && w.requests[q].id == id && Elapsed(w.clock, w.requests[q].at) < c.ttl
  {
    RunKeepsClaimsHeld(c, labels);
    var w := RunAll(c, labels);
    var q :| HeldBy(w, id, w.claims[id], q);
  }

  /** A failed call leads to a release, after which the very next attempt is granted. */
  lemma FailureFreesTheId(c: Config, w: World, r: nat, q: nat)
    requires IsReleasing(w, r) && q !in w.requests
    ensures var w' := Act(c, w, ReleaseClaim(r)); At(Act(c, w', Begin(q, w.requests[r].id)), q, Vault)
  {
  }

  // --- Accepted means durable -------------------------------------------------------

  /** Where the event of request `r` must be found once it has come to phase `p`. */
  ghost predicate Reached(c: Config, w: World, r: nat, p: Phase) {
    match p
    case PublishTopic(e) => (r, e) in w.raw
    case Upsert(e) => (r, e) in w.raw && (r, e) in w.topic
    case Ended(Accepted(e)) => (r, e) in w.raw && (r, e) in w.topic && (c.inlineStore ==> (r, e) in w.stored)
    case _ => true
  }

  ghost predicate Durable(c: Config, w: World) {
    forall r :: r in w.requests ==> Reached(c, w, r, w.requests[r].phase)
  }

  ghost predicate Extends(w: World, w': World) {
    w.raw <= w'.raw && w.topic <= w'.topic && w.stored <= w'.stored
  }

  lemma ReachedStays(c: Config, w: World, w': World, r: nat, p: Phase)
    requires Extends(w, w') && Reached(c, w, r, p)
    ensures Reached(c, w', r, p)
  {
    assert forall x :: x in w.raw ==> x in w'.raw;
    assert forall x :: x in w.topic ==> x in w'.topic;
    assert forall x :: x in w.stored ==> x in w'.stored;
  }

  lemma AnswerReaches(c: Config, w: World, r: nat, error: Option<Error>)
    requires r in w.requests && Reached(c, w, r, w.requests[r].phase)
    ensures var w' := Answer(c, w, r, error);
            Extends(w, w') && Reached(c, w', r, w'.requests[r].phase) &&
            (forall q :: q in w.requests && q != r ==> w'.requests[q] == w.requests[q])
  {
    var w' := Answer(c, w, r, error);
    ReachedStays(c, w, w', r, w.requests[r].phase);
  }

  lemma AnswerKeepsDurable(c: Config, w: World, r: nat, error: Option<Error>)
    requires Durable(c, w) && r in w.requests
    ensures Durable(c, Answer(c, w, r, error))
  {
    var w' := Answer(c, w, r, error);
    AnswerReaches(c, w, r, error);
    forall q | q in w'.requests ensures Reached(c, w', q, w'.requests[q].phase) {
      if q != r {
        ReachedStays(c, w, w', q, w.requests[q].phase);
      }
    }
  }

  lemma ActKeepsDurable(c: Config, w: World, l: Label)
    requires Durable(c, w)
    ensures Durable(c, Act(c, w, l))
  {
    var w' := Act(c, w, l);
    if l.Call? {
      if l.request in w.requests {
        AnswerKeepsDurable(c, w, l.request, l.error);
      }
      return;
    }
    forall r | r in w'.requests ensures Reached(c, w', r, w'.requests[r].phase) {
      if r in w.requests {
        ReachedStays(c, w, w', r, w.requests[r].phase);
      }
    }
  }

  /** Accepted is answered only once the event is in the raw log, its topic and, if there is one, the inline store. */
  lemma {:induction false} AcceptedIsDurable(c: Config, labels: seq<Label>)
    ensures Durable(c, RunAll(c, labels))
  {
    if labels != [] {
      AcceptedIsDurable(c, labels[..|labels| - 1]);
      ActKeepsDurable(c, RunAll(c, labels[..|labels| - 1]), labels[|labels| - 1]);
    }
  }

  // --- What each request publishes --------------------------------------------------

  datatype Log = Raw | Acl | Topic | Store

  function LogOf(w: World, log: Log): seq<(nat, Event)> {
    match log
    case Raw => w.raw
    case Acl => w.acl
    case Topic => w.topic
    case Store => w.stored
  }

  /** How often request `r` appears in a log. */
  function Appended(log: seq<(nat, Event)>, r: nat): nat {
    if log == [] then 0 else Appended(log[..|log| - 1], r) + if log[|log| - 1].0 == r then 1 else 0
  }

  /** What the payload of a request was found to be: an event that revokes access, or one that does not. */
  datatype Reading = Reading(event: Event, revokes: bool)

  /** The reading of the request's payload in this run, if it got that far and could be read. */
  function ReadAs(c: Config, labels: seq<Label>, r: nat): Option<Reading> {
    if labels == [] then None
    else
      var init, l := labels[..|labels| - 1], labels[|labels| - 1];
      if l.Normalized? && l.request == r && l.result.Some? && At(RunAll(c, init), r, Normalize)
      then Some(Reading(l.result.value, l.revokes)) else ReadAs(c, init, r)
  }

  /** Whether a request that has come to phase `p` is in the log; a revocation goes to the acl log first. */
  predicate Published(c: Config, p: Phase, log: Log, revokes: bool) {
    match log
    case Acl => revokes && !p.PublishAcl?
    case Raw => p.PublishTopic? || p.Upsert? || p.Ended?
    case Topic => p.Upsert? || p.Ended?
    case Store => c.inlineStore && p.Ended?
  }

  /** The event a request is working on, or was accepted with. */
  function EventIn(p: Phase): Option<Event> {
    match p
    case PublishAcl(e) => Some(e)
    case PublishRaw(e) => Some(e)
    case PublishTopic(e) => Some(e)
    case Upsert(e) => Some(e)
    case Ended(Accepted(e)) => Some(e)
    case _ => None
  }

  predicate Unread(p: Phase) {
    p.Vault? || p.Normalize? || p == Ended(Duplicate) || p == Ended(DeadLettered)
  }

  /** What a request is known as agrees with where it stands. */
  ghost predicate ReadingFits(c: Config, w: World, r: nat, h: Option<Reading>) {
    if r !in w.requests then h.None?
    else
      var p := w.requests[r].phase;
      (Unread(p) ==> h.None?) && (EventIn(p).Some? ==> h.Some? && h.value.event == EventIn(p).value) &&
      (p.PublishAcl? ==> h.value.revokes) && (p.Upsert? ==> c.inlineStore)
  }

  /** The log has the request at most once, with the event read; and exactly when it has come past that publication. */
  ghost predicate LogFits(c: Config, w: World, r: nat, h: Option<Reading>, log: Log) {
    Appended(LogOf(w, log), r) <= 1 &&
    (Appended(LogOf(w, log), r) == 1 ==> h.Some? && (log.Acl? ==> h.value.revokes)) &&
    (forall e :: (r, e) in LogOf(w, log) ==> h.Some? && h.value.event == e) &&
    (r in w.requests && EventIn(w.requests[r].phase).Some? && h.Some? ==>
      (Appended(LogOf(w, log), r) == 1 <==> Published(c, w.requests[r].phase, log, h.value.revokes)))
  }

  /** Only a publication touches a log: the answered call of a request appends its event to the log of its phase. */
  ghost predicate Appends(w: World, l: Label, log: Log) {
    l.Call? && l.error.None? && l.request in w.requests &&
    var p := w.requests[l.request].phase;
    match log
    case Acl => p.PublishAcl?
    case Raw => p.PublishRaw?
    case Topic => p.PublishTopic?
    case Store => p.Upsert?
  }

  lemma LogGrows(c: Config, w: World, l: Label, log: Log)
    ensures LogOf(Act(c, w, l), log) == LogOf(w, log) +
        if Appends(w, l, log) then [(l.request, EventIn(w.requests[l.request].phase).value)] else []
  {
  }

  lemma AppendedOne(log: seq<(nat, Event)>, q: nat, e: Event, r: nat)
    ensures Appended(log + [(q, e)], r) == Appended(log, r) + if q == r then 1 else 0
  {
    assert (log + [(q, e)])[..|log|] == log;
  }

  /** What a step makes of the reading. */
  ghost function ReadingAfter(w: World, l: Label, r: nat, h: Option<Reading>): Option<Reading> {
    if l.Normalized? && l.request == r && l.result.Some? && At(w, r, Normalize)
    then Some(Reading(l.result.value, l.revokes)) else h
  }

  lemma ActKeepsReading(c: Config, w: World, l: Label, r: nat, h: Option<Reading>)
    requires ReadingFits(c, w, r, h)
    ensures ReadingFits(c, Act(c, w, l), r, ReadingAfter(w, l, r, h))
  {
  }

  /** A step that is not this publication leaves it as done, or as open, as it was. */
  lemma PublishedStays(c: Config, w: World, l: Label, r: nat, h: Option<Reading>, log: Log)
    requires ReadingFits(c, w, r, h) && (!Appends(w, l, log) || l.request != r)
    ensures var w', h' := Act(c, w, l), ReadingAfter(w, l, r, h);
            r in w'.requests && EventIn(w'.requests[r].phase).Some? && h'.Some? ==>
              r in w.requests &&
              (Unread(w.requests[r].phase) ==> !Published(c, w'.requests[r].phase, log, h'.value.revokes)) &&
              (!Unread(w.requests[r].phase) ==>
                EventIn(w.requests[r].phase).Some? && h' == h &&
                (Published(c, w'.requests[r].phase, log, h.value.revokes) <==>
                  Published(c, w.requests[r].phase, log, h.value.revokes)))
  {
  }

  lemma EntriesStay(c: Config, w: World, l: Label, r: nat, log: Log)
    requires !Appends(w, l, log) || l.request != r
    ensures var w' := Act(c, w, l);
            Appended(LogOf(w', log), r) == Appended(LogOf(w, log), r) &&
            forall e :: (r, e) in LogOf(w', log) <==> (r, e) in LogOf(w, log)
  {
    LogGrows(c, w, l, log);
    if Appends(w, l, log) {
      AppendedOne(LogOf(w, log), l.request, EventIn(w.requests[l.request].phase).value, r);
    }
  }

  lemma OthersKeepLog(c: Config, w: World, l: Label, r: nat, h: Option<Reading>, log: Log)
    requires ReadingFits(c, w, r, h) && LogFits(c, w, r, h, log)
    requires !Appends(w, l, log) || l.request != r
    ensures LogFits(c, Act(c, w, l), r, ReadingAfter(w, l, r, h), log)
  {
    PublishedStays(c, w, l, r, h, log);
    EntriesStay(c, w, l, r, log);
  }

  lemma OwnKeepsLog(c: Config, w: World, l: Label, h: Option<Reading>, log: Log)
    requires Appends(w, l, log) && ReadingFits(c, w, l.request, h) && LogFits(c, w, l.request, h, log)
    ensures LogFits(c, Act(c, w, l), l.request, h, log)
  {
    LogGrows(c, w, l, log);
    AppendedOne(LogOf(w, log), l.request, EventIn(w.requests[l.request].phase).value, l.request);
  }

  /**
   * In every run a request is in each log at most once, with the event its payload was read as. One on its way or
   * accepted is there exactly when it has come past that publication, and in the acl log exactly when it revokes.
   */
  lemma {:induction false} LogsAreExact(c: Config, labels: seq<Label>, r: nat)
    ensures ReadingFits(c, RunAll(c, labels), r, ReadAs(c, labels, r))
    ensures forall log :: LogFits(c, RunAll(c, labels), r, ReadAs(c, labels, r), log)
  {
    if labels != [] {
      var init, l := labels[..|labels| - 1], labels[|labels| - 1];
      var w, h := RunAll(c, init), ReadAs(c, init, r);
      LogsAreExact(c, init, r);
      ActKeepsReading(c, w, l, r, h);
      forall log ensures LogFits(c, RunAll(c, labels), r, ReadAs(c, labels, r), log) {
        if Appends(w, l, log) && l.request == r {
          OwnKeepsLog(c, w, l, h, log);
        } else {
          OthersKeepLog(c, w, l, r, h, log);
        }
      }
    }
  }

  lemma {:induction false} InLog(log: seq<(nat, Event)>, r: nat)
    ensures Appended(log, r) > 0 <==> exists e :: (r, e) in log
  {
    if log != [] {
      InLog(log[..|log| - 1], r);
      assert log == log[..|log| - 1] + [log[|log| - 1]];
    }
  }

  /** An accepted revocation is in the acl log, once; nothing else ever is. */
  lemma RevocationsArePublished(c: Config, labels: seq<Label>, r: nat, e: Event)
    ensures var w := RunAll(c, labels);
            Appended(w.acl, r) <= 1 &&
            ((r, e) in w.acl ==> ReadAs(c, labels, r) == Some(Reading(e, true))) &&
            (At(w, r, Ended(Accepted(e))) ==> ((r, e) in w.acl <==> ReadAs(c, labels, r) == Some(Reading(e, true))))
  {
    var w, h := RunAll(c, labels), ReadAs(c, labels, r);
    LogsAreExact(c, labels, r);
    assert LogFits(c, w, r, h, Acl);
    InLog(w.acl, r);
  }

  predicate MayHavePublished(p: Phase) {
    match p
    case Vault => false
    case Normalize => false
    case PublishAcl(_) => false
    case PublishRaw(_) => false
    case Ended(o) => !o.Duplicate? && !o.DeadLettered?
    case _ => true
  }

  ghost predicate RawCount(w: World, r: nat) {
    Appended(w.raw, r) <= 1 && (Appended(w.raw, r) == 1 ==> r in w.requests && MayHavePublished(w.requests[r].phase))
  }

  /** No request publishes its event twice, and duplicates and dead letters never reach the raw log. */
  lemma PublishedAtMostOnce(c: Config, labels: seq<Label>)
    ensures forall r :: RawCount(RunAll(c, labels), r)
  {
    forall r ensures RawCount(RunAll(c, labels), r) {
      LogsAreExact(c, labels, r);
      assert LogFits(c, RunAll(c, labels), r, ReadAs(c, labels, r), Raw);
    }
  }

  // --- A release that comes too late ------------------------------------------------

  lemma Append(c: Config, labels: seq<Label>, l: Label) returns (more: seq<Label>)
    ensures labels <= more && RunAll(c, more) == Act(c, RunAll(c, labels), l)
  {
    more := labels + [l];
    assert more[..|labels|] == labels;
  }

  lemma {:induction false} RunPast(c: Config, labels: seq<Label>)
    ensures PastOnly(RunAll(c, labels))
  {
    if labels != [] {
      var w, l := RunAll(c, labels[..|labels| - 1]), labels[|labels| - 1];
      RunPast(c, labels[..|labels| - 1]);
      if !l.Begin? {
        ActFollows(c, w, l);
      }
    }
  }

  /** Everything about the other requests stays, and so do the times and ids. */
  ghost predicate OnlyMoves(w: World, w': World, r: nat) {
    w'.clock == w.clock && w'.claims == w.claims && w'.requests.Keys == w.requests.Keys &&
    (forall q :: q in w.requests && q != r ==> w'.requests[q] == w.requests[q]) &&
    (r in w.requests ==> w'.requests[r].id == w.requests[r].id && w'.requests[r].at == w.requests[r].at)
  }

  function StepsLeft(p: Phase): nat {
    match p
    case Vault => 6
    case Normalize => 5
    case PublishAcl(_) => 4
    case PublishRaw(_) => 3
    case PublishTopic(_) => 2
    case Upsert(_) => 1
    case _ => 0
  }

  /** The step that brings a request in progress closer to its end. */
  function Onward(w: World, r: nat): Label
    requires r in w.requests
  {
    match w.requests[r].phase
    case Vault => Vaulted(r)
    case Normalize => Normalized(r, None, false)
    case _ => Call(r, None)
  }

  lemma OnwardMoves(c: Config, w: World, r: nat)
    requires r in w.requests && InProgress(w.requests[r].phase)
    ensures var w' := Act(c, w, Onward(w, r));
            OnlyMoves(w, w', r) && (Processed(w', r) || InProgress(w'.requests[r].phase)) &&
            StepsLeft(w'.requests[r].phase) < StepsLeft(w.requests[r].phase)
  {
  }

  /** A request in progress can always be brought to an end without touching the others. */
  lemma {:induction false} CanFinish(c: Config, labels: seq<Label>, r: nat) returns (more: seq<Label>)
    requires var w := RunAll(c, labels); Viable(w, r)
    ensures labels <= more && OnlyMoves(RunAll(c, labels), RunAll(c, more), r) && Processed(RunAll(c, more), r)
    decreases StepsLeft(RunAll(c, labels).requests[r].phase)
  {
    var w := RunAll(c, labels);
    if Processed(w, r) {
      more := labels;
    } else {
      OnwardMoves(c, w, r);
      var next := Append(c, labels, Onward(w, r));
      more := CanFinish(c, next, r);
    }
  }

  lemma {:induction false} Unused(s: set<nat>) returns (n: nat)
    ensures forall x :: x in s ==> x < n
  {
    if x :| x in s {
      var m := Unused(s - {x});
      n := if x < m then m else x + 1;
      forall y | y in s ensures y < n {
        assert y == x || y in s - {x};
      }
    } else {
      n := 0;
    }
  }

  /**
   * A release that takes a live claim does let two requests through: in some continuation the robbed one and a new
   * delivery of the same id are both processed, less than ttl apart.
   */
  lemma RobbedClaimLetsTwoThrough(c: Config, labels: seq<Label>, r: nat, q: nat) returns (more: seq<Label>, n: nat)
    requires Robs(c, RunAll(c, labels), r, q)
    ensures labels <= more
    ensures var w := RunAll(c, more);
            n != q && Processed(w, q) && Processed(w, n) && w.requests[n].id == w.requests[q].id &&
            w.requests[n].at == RunAll(c, labels).clock && w.requests[q].at == RunAll(c, labels).requests[q].at &&
            Apart(w.requests[n].at, w.requests[q].at) < c.ttl
  {
    var w := RunAll(c, labels);
    var id := w.requests[q].id;
    RunPast(c, labels);
    n := Unused(w.requests.Keys);
    var released := Append(c, labels, ReleaseClaim(r));
    var begun := Append(c, released, Begin(n, id));
    assert q in w.requests && n !in w.requests;
    assert At(RunAll(c, begun), n, Vault);
    var first := CanFinish(c, begun, n);
    assert RunAll(c, first).requests[q] == w.requests[q];
    more := CanFinish(c, first, q);
  }

  /** Such a release happens when a failing ingest outlives its claim: the retry has claimed the id in the meantime. */
  lemma LateReleaseRobs(c: Config, id: string, e: Event) returns (labels: seq<Label>)
    requires c.ttl > 0
    ensures Robs(c, RunAll(c, labels), 0, 1) &&
        RunAll(c, labels).requests[1] == Request(id, RunAll(c, labels).clock, Vault)
  {
    labels := FailingIngest(c, id, e);
    labels := Append(c, labels, Tick(c.ttl));
    labels := Append(c, labels, Begin(1, id));
  }

  /** Two deliveries of one id are then processed at the same time. */
  lemma LateReleaseLetsTwoThrough(c: Config, id: string, e: Event) returns (labels: seq<Label>, n: nat)
    requires c.ttl > 0
    ensures var w := RunAll(c, labels);
            n != 1 && Processed(w, 1) && Processed(w, n) && w.requests[1].id == w.requests[n].id &&
                w.requests[1].at == w.requests[n].at
  {
    labels := LateReleaseRobs(c, id, e);
    labels, n := RobbedClaimLetsTwoThrough(c, labels, 0, 1);
  }

  lemma FailingIngest(c: Config, id: string, e: Event) returns (labels: seq<Label>)
    ensures RunAll(c, labels) == World(0, map[id := 0], map[0 := Request(id, 0, Releasing)], [], [], [], [])
  {
    labels := Append(c, [], Begin(0, id));
    assert RunAll(c, labels) == World(0, map[id := 0], map[0 := Request(id, 0, Vault)], [], [], [], []);
    labels := Append(c, labels, Vaulted(0));
    labels := Append(c, labels, Normalized(0, Some(e), false));
    assert RunAll(c, labels) == World(0, map[id := 0], map[0 := Request(id, 0, PublishRaw(e))], [], [], [], []);
    labels := Append(c, labels, Call(0, Some(Infrastructure)));
  }
}
