/** The ingest method of the webhook pipeline, run alone. */
module Pipeline {
  import opened GraphModel
  import opened Dedup
  import opened Numbers
  import opened Ingest

  datatype Reason = Validation | NotFound | Auth | RateLimited

  datatype Reply = Rejected(reason: Reason) | Answered(outcome: Outcome)

  /** What the tenant directory, the verifier, the limiter, the normalizer and the backends say to one request. */
  datatype Services = Services(
    isChallenge: bool, tenantKnown: bool, authentic: bool, withinLimit: bool, freshId: string,
    normalized: Option<Event>, revokes: bool,
    acl: Option<Error>, raw: Option<Error>, topic: Option<Error>, store: Option<Error>)

  function Gate(s: Services): Option<Reason> {
    if s.isChallenge then Some(Validation)
    else if !s.tenantKnown then Some(NotFound)
    else if !s.authentic then Some(Auth)
    else if !s.withinLimit then Some(RateLimited)
    else None
  }

  /** The first failing call decides; without one the event is accepted. */
  function Verdict(inlineStore: bool, s: Services): Outcome {
    match s.normalized
    case None => DeadLettered
    case Some(e) =>
      if s.revokes && s.acl.Some? then Failed(s.acl.value)
      else Publication(inlineStore, e, s)
  }

  function Publication(inlineStore: bool, e: Event, s: Services): Outcome {
    if s.raw.Some? then Failed(s.raw.value)
    else if s.topic.Some? then Failed(s.topic.value)
    else if inlineStore && s.store.Some? then Failed(s.store.value)
    else Accepted(e)
  }

  /** What the outcome says about the calls: accepted means that every call that was due succeeded. */
  lemma VerdictMeans(inlineStore: bool, s: Services)
    ensures var o := Verdict(inlineStore, s);
            (o == DeadLettered <==> s.normalized.None?) &&
            (o.Accepted? <==>
              s.normalized.Some? && (s.revokes ==> s.acl.None?) && s.raw.None? && s.topic.None? &&
              (inlineStore ==> s.store.None?)) &&
            (o.Accepted? ==> Some(o.event) == s.normalized) &&
            (o.Failed? ==> Some(o.error) in {s.acl, s.raw, s.topic, s.store}) && !o.Duplicate? && !o.Cancelled?
  {
  }

  /** The phase in which processing leaves a request. */
  function Left(o: Outcome): Phase {
    if o == Failed(Infrastructure) then Releasing else Ended(o)
  }

  /** Which publications of a request succeed: each needs all before it, the acl log only what revokes. */
  predicate Sent(inlineStore: bool, s: Services, log: Log) {
    s.normalized.Some? &&
    match log
    case Acl => s.revokes && s.acl.None?
    case Raw => (s.revokes ==> s.acl.None?) && s.raw.None?
    case Topic => (s.revokes ==> s.acl.None?) && s.raw.None? && s.topic.None?
    case Store => (s.revokes ==> s.acl.None?) && s.raw.None? && s.topic.None? && inlineStore && s.store.None?
  }

  function Plus(log: seq<(nat, Event)>, sent: bool, r: nat, e: Option<Event>): seq<(nat, Event)> {
    if sent && e.Some? then log + [(r, e.value)] else log
  }

  /** What a request that got past its claim, or did not, leaves in the four logs. */
  ghost predicate Logged(w: World, w': World, sent: bool, inlineStore: bool, s: Services, r: nat) {
    w'.raw == Plus(w.raw, sent && Sent(inlineStore, s, Raw), r, s.normalized) &&
    w'.acl == Plus(w.acl, sent && Sent(inlineStore, s, Acl), r, s.normalized) &&
    w'.topic == Plus(w.topic, sent && Sent(inlineStore, s, Topic), r, s.normalized) &&
    w'.stored == Plus(w.stored, sent && Sent(inlineStore, s, Store), r, s.normalized)
  }

  ghost predicate SameLogs(w: World, w': World) {
    w'.raw == w.raw && w'.acl == w.acl && w'.topic == w.topic && w'.stored == w.stored
  }

  lemma LoggedBetween(w: World, w1: World, w2: World, w': World, inlineStore: bool, s: Services, r: nat)
    requires SameLogs(w, w1) && Logged(w1, w2, true, inlineStore, s, r) && SameLogs(w2, w')
    ensures Logged(w, w', true, inlineStore, s, r)
  {
  }

  /** An accepted event is in every log it belongs to, a revocation also in that of the access lists. */
  lemma AcceptedIsLogged(w: World, w': World, inlineStore: bool, s: Services, r: nat, e: Event)
    requires Logged(w, w', true, inlineStore, s, r) && Verdict(inlineStore, s) == Accepted(e)
    ensures s.normalized == Some(e) && w'.raw == w.raw + [(r, e)] && w'.topic == w.topic + [(r, e)]
    ensures w'.acl == if s.revokes then w.acl + [(r, e)] else w.acl
    ensures w'.stored == if inlineStore then w.stored + [(r, e)] else w.stored
  {
  }

  class IngestPipeline {
    const config: Config
    const dedup: InMemoryDedup
    var raw: seq<(nat, Event)>
    var acl: seq<(nat, Event)>
    var topic: seq<(nat, Event)>
    var stored: seq<(nat, Event)>
    /** The requests seen, for the record. */
    ghost var requests: map<nat, Request>

    ghost predicate Valid()
      reads this, dedup
    {
      dedup.Valid() && dedup.ttl == config.ttl
    }

    ghost function State(): World
      reads this, dedup
    {
      World(dedup.clock, dedup.claims, requests, raw, acl, topic, stored)
    }

    constructor (config: Config)
      ensures Valid() && State() == InitialWorld && this.config == config
    {
      this.config := config;
      dedup := new InMemoryDedup(config.ttl);
      raw, acl, topic, stored, requests := [], [], [], [], map[];
    }

    /**
     * One request from gate to answer. A rejected request changes nothing; every other one is a run of the step
     * machine, so what holds of all its runs holds here, and the services decide the outcome.
     */
    method Ingest(r: nat, deliveryId: string, s: Services, now: Instant)
      returns (reply: Reply, ghost labels: seq<Label>)
      requires Valid() && r !in requests && dedup.clock <= now
      modifies this, dedup
      ensures Valid()
      ensures Gate(s).Some? ==> reply == Rejected(Gate(s).value) && State() == old(State())
      ensures Gate(s).None? ==> reply.Answered? && State() == RunFrom(config, old(State()), labels)
      ensures Gate(s).None? ==> At(State(), r, Ended(reply.outcome)) && State().requests[r].at == now
      ensures Gate(s).None? ==>
                var id := if deliveryId != "" then deliveryId else s.freshId;
                State().requests[r].id == id &&
                reply.outcome == if Grants(old(dedup.claims), config.ttl, id, now) then Verdict(config.inlineStore, s)
                    else Duplicate
      ensures Gate(s).None? ==>
                var id := if deliveryId != "" then deliveryId else s.freshId;
                id in dedup.claims <==> reply.outcome != Failed(Infrastructure)
      ensures reply.Answered? <==> !s.isChallenge && s.tenantKnown && s.authentic && s.withinLimit
      ensures reply == Rejected(NotFound) ==> !s.tenantKnown
      ensures reply == Rejected(Auth) ==> s.tenantKnown && !s.authentic
      ensures reply == Rejected(RateLimited) ==> s.tenantKnown && s.authentic && !s.withinLimit
      ensures Logged(old(State()), State(), reply.Answered? && reply.outcome != Duplicate, config.inlineStore, s, r)
      ensures forall e :: reply == Answered(Accepted(e)) ==>
                s.normalized == Some(e) && raw == old(raw) + [(r, e)] && topic == old(topic) + [(r, e)] &&
                acl == (if s.revokes then old(acl) + [(r, e)] else old(acl)) &&
                stored == if config.inlineStore then old(stored) + [(r, e)] else old(stored)
    {
      labels := [];
      if s.isChallenge {
        return Rejected(Validation), [];
      }
      if !s.tenantKnown {
        return Rejected(NotFound), [];
      }
      if !s.authentic {
        return Rejected(Auth), [];
      }
      if !s.withinLimit {
        return Rejected(RateLimited), [];
      }
      var o;
      ghost var before := State();
      o, labels := IngestClaimed(r, if deliveryId != "" then deliveryId else s.freshId, s, now);
      if o.Accepted? {
        AcceptedIsLogged(before, State(), config.inlineStore, s, r, o.event);
      }
      return Answered(o), labels;
    }

    /** Claims the delivery, processes it, and releases the claim again when a backend failed. */
    method IngestClaimed(r: nat, id: string, s: Services, now: Instant) returns (o: Outcome, ghost labels: seq<Label>)
      requires Valid() && r !in requests && dedup.clock <= now
      modifies this, dedup
      ensures Valid() && State() == RunFrom(config, old(State()), labels)
      ensures At(State(), r, Ended(o)) && requests[r].at == now && requests[r].id == id
      ensures o == if Grants(old(dedup.claims), config.ttl, id, now) then Verdict(config.inlineStore, s) else Duplicate
      ensures Logged(old(State()), State(), o != Duplicate, config.inlineStore, s, r)
      ensures id in dedup.claims <==> o != Failed(Infrastructure)
    {
      ghost var start := State();
      var first;
      first, labels := Claim(r, id, now);
      if !first {
        return Duplicate, labels;
      }
      ghost var claimed := State();
      o, labels := ProcessClaimed(r, s, start, labels);
      ghost var done := State();
      if o == Failed(Infrastructure) {
        labels := ReleaseClaimOf(r, id, start, labels);
      }
      LoggedBetween(start, claimed, done, State(), config.inlineStore, s, r);
    }

    method Claim(r: nat, id: string, now: Instant) returns (first: bool, ghost labels: seq<Label>)
      requires Valid() && r !in requests && dedup.clock <= now
      modifies `requests, dedup
      ensures Valid() && State() == RunFrom(config, old(State()), labels)
      ensures first == Grants(old(dedup.claims), config.ttl, id, now)
      ensures requests == old(requests)[r := Request(id, now, if first then Vault else Ended(Duplicate))]
      ensures id in dedup.claims
    {
      TwoSteps(config, State(), Tick(now), Begin(r, id));
      labels := [Tick(now), Begin(r, id)];
      first := dedup.TryClaim(id, now, now);
      requests := requests[r := Request(id, now, if first then Vault else Ended(Duplicate))];
    }

    method ReleaseClaimOf(r: nat, id: string, ghost start: World, ghost before: seq<Label>)
      returns (ghost labels: seq<Label>)
      requires Valid() && At(State(), r, Releasing) && requests[r].id == id
      requires State() == RunFrom(config, start, before)
      modifies `requests, dedup
      ensures Valid() && State() == RunFrom(config, start, labels) && id !in dedup.claims
      ensures requests == old(requests)[r := old(requests)[r].(phase := Ended(Failed(Infrastructure)))]
    {
      labels := Next(config, start, before, ReleaseClaim(r));
      dedup.Release(id);
      requests := requests[r := requests[r].(phase := Ended(Failed(Infrastructure)))];
    }

    /** A call of a backend appends exactly when it succeeds. */
    method PublishRevocation(r: nat, event: Event, error: Option<Error>, ghost start: World, ghost before: seq<Label>)
      returns (ghost labels: seq<Label>)
      requires At(State(), r, PublishAcl(event)) && State() == RunFrom(config, start, before)
      modifies `acl, `requests
      ensures State() == RunFrom(config, start, labels)
      ensures requests == old(requests)[r := old(requests)[r].(phase := AfterCall(error, PublishRaw(event)))]
      ensures acl == Plus(old(acl), error.None?, r, Some(event))
    {
      labels := Next(config, start, before, Call(r, error));
      if error.None? {
        acl := acl + [(r, event)];
      }
      requests := requests[r := requests[r].(phase := AfterCall(error, PublishRaw(event)))];
    }

    /** The durable append. */
    method PublishEvent(r: nat, event: Event, error: Option<Error>, ghost start: World, ghost before: seq<Label>)
      returns (ghost labels: seq<Label>)
      requires At(State(), r, PublishRaw(event)) && State() == RunFrom(config, start, before)
      modifies `raw, `requests
      ensures State() == RunFrom(config, start, labels)
      ensures requests == old(requests)[r := old(requests)[r].(phase := AfterCall(error, PublishTopic(event)))]
      ensures raw == Plus(old(raw), error.None?, r, Some(event))
    {
      labels := Next(config, start, before, Call(r, error));
      if error.None? {
        raw := raw + [(r, event)];
      }
      requests := requests[r := requests[r].(phase := AfterCall(error, PublishTopic(event)))];
    }

    /** The realtime or backfill topic. */
    method PublishToTopic(r: nat, event: Event, error: Option<Error>, ghost start: World, ghost before: seq<Label>)
      returns (ghost labels: seq<Label>)
      requires At(State(), r, PublishTopic(event)) && State() == RunFrom(config, start, before)
      modifies `topic, `requests
      ensures State() == RunFrom(config, start, labels)
      ensures requests == old(requests)[r :=
          old(requests)[r].(phase := AfterCall(error, AfterTopic(config.inlineStore, event)))]
      ensures topic == Plus(old(topic), error.None?, r, Some(event))
    {
      labels := Next(config, start, before, Call(r, error));
      if error.None? {
        topic := topic + [(r, event)];
      }
      requests := requests[r := requests[r].(phase := AfterCall(error, AfterTopic(config.inlineStore, event)))];
    }

    /** The inline analytical write. */
    method UpsertInline(r: nat, event: Event, error: Option<Error>, ghost start: World, ghost before: seq<Label>)
      returns (ghost labels: seq<Label>)
      requires At(State(), r, Upsert(event)) && State() == RunFrom(config, start, before)
      modifies `stored, `requests
      ensures State() == RunFrom(config, start, labels)
      ensures requests == old(requests)[r := old(requests)[r].(phase := AfterCall(error, Ended(Accepted(event))))]
      ensures stored == Plus(old(stored), error.None?, r, Some(event))
    {
      labels := Next(config, start, before, Call(r, error));
      if error.None? {
        stored := stored + [(r, event)];
      }
      requests := requests[r := requests[r].(phase := AfterCall(error, Ended(Accepted(event))))];
    }

    /** Everything between the claim and the answer; a failure of a backend leaves the claim to be released. */
    method ProcessClaimed(r: nat, s: Services, ghost start: World, ghost before: seq<Label>)
      returns (o: Outcome, ghost labels: seq<Label>)
      requires At(State(), r, Vault) && State() == RunFrom(config, start, before)
      modifies `raw, `acl, `topic, `stored, `requests
      ensures State() == RunFrom(config, start, labels)
      ensures o == Verdict(config.inlineStore, s)
      ensures requests == old(requests)[r := old(requests)[r].(phase := Left(o))]
      ensures Logged(old(State()), State(), true, config.inlineStore, s, r)
    {
      var e;
      e, labels := NormalizeEvent(r, s, start, before);
      if e.None? {
        return DeadLettered, labels;
      }
      o, labels := Publish(r, e.value, s, start, labels);
    }

    /** A revocation goes out first; when that fails, nothing else does. */
    method Publish(r: nat, event: Event, s: Services, ghost start: World, ghost before: seq<Label>)
      returns (o: Outcome, ghost labels: seq<Label>)
      requires s.normalized == Some(event) && State() == RunFrom(config, start, before)
      requires At(State(), r, if s.revokes then PublishAcl(event) else PublishRaw(event))
      modifies `raw, `acl, `topic, `stored, `requests
      ensures State() == RunFrom(config, start, labels)
      ensures o == Verdict(config.inlineStore, s)
      ensures requests == old(requests)[r := old(requests)[r].(phase := Left(o))]
      ensures Logged(old(State()), State(), true, config.inlineStore, s, r)
    {
      labels := before;
      if s.revokes {
        labels := PublishRevocation(r, event, s.acl, start, labels);
        if s.acl.Some? {
          return Failed(s.acl.value), labels;
        }
      }
      o, labels := PublishDurably(r, event, s, start, labels);
    }

    /** The durable part: raw log, then topic, then inline store. */
    method PublishDurably(r: nat, event: Event, s: Services, ghost start: World, ghost before: seq<Label>)
      returns (o: Outcome, ghost labels: seq<Label>)
      requires At(State(), r, PublishRaw(event)) && State() == RunFrom(config, start, before)
      modifies `raw, `topic, `stored, `requests
      ensures State() == RunFrom(config, start, labels)
      ensures o == Publication(config.inlineStore, event, s)
      ensures requests == old(requests)[r := old(requests)[r].(phase := Left(o))]
      ensures raw == Plus(old(raw), s.raw.None?, r, Some(event))
      ensures topic == Plus(old(topic), s.raw.None? && s.topic.None?, r, Some(event))
      ensures stored == Plus(old(stored), s.raw.None? && s.topic.None? && config.inlineStore && s.store.None?, r,
          Some(event))
    {
      labels := PublishEvent(r, event, s.raw, start, before);
      if s.raw.Some? {
        return Failed(s.raw.value), labels;
      }
      o, labels := PublishDownstream(r, event, s, start, labels);
    }

    /** Once the event is in the raw log: the topic, then the inline store. */
    method PublishDownstream(r: nat, event: Event, s: Services, ghost start: World, ghost before: seq<Label>)
      returns (o: Outcome, ghost labels: seq<Label>)
      requires At(State(), r, PublishTopic(event)) && State() == RunFrom(config, start, before)
      modifies `topic, `stored, `requests
      ensures State() == RunFrom(config, start, labels)
      ensures s.raw.None? ==> o == Publication(config.inlineStore, event, s)
      ensures requests == old(requests)[r := old(requests)[r].(phase := Left(o))]
      ensures topic == Plus(old(topic), s.topic.None?, r, Some(event))
      ensures stored == Plus(old(stored), s.topic.None? && config.inlineStore && s.store.None?, r, Some(event))
    {
      labels := PublishToTopic(r, event, s.topic, start, before);
      if s.topic.Some? {
        return Failed(s.topic.value), labels;
      }
      if config.inlineStore {
        labels := UpsertInline(r, event, s.store, start, labels);
        if s.store.Some? {
          return Failed(s.store.value), labels;
        }
      }
      return Accepted(event), labels;
    }

    /** The vault may fail without consequence; a payload that does not normalize is dead-lettered. */
    method NormalizeEvent(r: nat, s: Services, ghost start: World, ghost before: seq<Label>)
      returns (e: Option<Event>, ghost labels: seq<Label>)
      requires At(State(), r, Vault) && State() == RunFrom(config, start, before)
      modifies `requests
      ensures State() == RunFrom(config, start, labels) && e == s.normalized
      ensures requests == old(requests)[r := old(requests)[r].(phase :=
                match s.normalized
                case None => Ended(DeadLettered)
                case Some(event) => if s.revokes then PublishAcl(event) else PublishRaw(event))]
    {
      labels := Next(config, start, before, Vaulted(r));
      labels := Next(config, start, labels, Normalized(r, s.normalized, s.revokes));
      e := s.normalized;
      if e.None? {
        requests := requests[r := requests[r].(phase := Ended(DeadLettered))];
      } else {
        requests := requests[r := requests[r].(phase := if s.revokes then PublishAcl(e.value)
            else PublishRaw(e.value))];
      }
    }
  }

  /** Where a request goes after a call of a backend. */
  function AfterCall(error: Option<Error>, next: Phase): Phase {
    if error.Some? then AfterFailure(error.value) else next
  }

  function AfterTopic(inlineStore: bool, event: Event): Phase {
    if inlineStore then Upsert(event) else Ended(Accepted(event))
  }

  function AfterFailure(e: Error): Phase {
    if e.DeadLetterError? then Ended(Failed(DeadLetterError)) else Releasing
  }

  lemma TwoSteps(c: Config, w: World, a: Label, b: Label)
    ensures RunFrom(c, w, [a, b]) == Act(c, Act(c, w, a), b)
  {
    assert [a, b][..1] == [a];
    assert RunFrom(c, w, [a][..0]) == w;
    assert RunFrom(c, w, [a]) == Act(c, w, a);
  }

  lemma Next(c: Config, start: World, labels: seq<Label>, l: Label) returns (more: seq<Label>)
    ensures more == labels + [l] && RunFrom(c, start, more) == Act(c, RunFrom(c, start, labels), l)
  {
    more := labels + [l];
    assert more[..|labels|] == labels;
  }
}
