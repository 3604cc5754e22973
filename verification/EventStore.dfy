/** The event journal: events by id, and per resource in time order. */
module EventStore {
  import opened GraphModel
  import opened Sorting

  datatype Event = Event(
    tenantId: string, eventId: string, resourceId: string, parentResourceId: string, eventType: string,
    category: string, provider: string, timestamp: int, sequence: nat,
    isPrivate: bool, allowedGroups: seq<string>, aclVersion: nat)

  /** Both indexes; keys pair the tenant with the event id or the resource id. */
  datatype Journal = Journal(byId: map<(string, string), Event>, byResource: map<(string, string), seq<Event>>)

  const EmptyJournal := Journal(map[], map[])

  function IdKey(e: Event): (string, string) {
    (e.tenantId, e.eventId)
  }

  function ResourceKey(e: Event): (string, string) {
    (e.tenantId, e.resourceId)
  }

  function ListOf(j: Journal, key: (string, string)): seq<Event> {
    if key in j.byResource then j.byResource[key] else []
  }

  function ByTime(): (Event, Event) -> bool {
    (a: Event, b: Event) => a.timestamp <= b.timestamp
  }

  /** Position of the event with this id, or the length of the list. */
  function Position(list: seq<Event>, id: string): (k: nat)
    ensures k <= |list| && (forall i :: 0 <= i < k ==> list[i].eventId != id) && (k < |list| ==> list[k].eventId == id)
  {
    if list == [] || list[0].eventId == id then 0 else Position(list[1..], id) + 1
  }

  function Put(list: seq<Event>, e: Event): seq<Event> {
    var k := Position(list, e.eventId);
    if k < |list| then list[k := e] else list + [e]
  }

  /** The rule the store computes and then ignores: whether an arrival is to replace the stored version. */
  predicate Replaces(existing: Event, e: Event) {
    e.aclVersion > existing.aclVersion ||
    (e.aclVersion == existing.aclVersion && e.sequence >= existing.sequence) ||
    (e.timestamp >= existing.timestamp && e.sequence >= existing.sequence)
  }

  function Upserted(j: Journal, e: Event): Journal {
    Journal(j.byId[IdKey(e) := e], j.byResource[ResourceKey(e) := Sort(Put(ListOf(j, ResourceKey(e)), e), ByTime())])
  }

  function UpsertAll(j: Journal, es: seq<Event>): Journal {
    if es == [] then j else Upserted(UpsertAll(j, es[..|es| - 1]), es[|es| - 1])
  }

  function Visible(ctx: QueryContext, e: Event): bool {
    AclAllows(ctx, e.isPrivate, e.allowedGroups)
  }

  /** Order of `(event_timestamp, event_sequence_number)`. */
  predicate KeyLe(a: Event, b: Event) {
    a.timestamp < b.timestamp || (a.timestamp == b.timestamp && a.sequence <= b.sequence)
  }

  /** `max_by_key`: the last of the greatest. */
  function LastMax(ctx: QueryContext, list: seq<Event>): Option<Event> {
    if list == [] then None
    else
      var before, e := LastMax(ctx, list[..|list| - 1]), list[|list| - 1];
      if Visible(ctx, e) && (before.None? || KeyLe(before.value, e)) then Some(e) else before
  }

  function Latest(j: Journal, ctx: QueryContext, resource: string): Option<Event> {
    LastMax(ctx, ListOf(j, (ctx.tenantId, resource)))
  }

  datatype EventQuery = EventQuery(
    tenantId: string, categories: set<string>, providers: set<string>, resourceId: Option<string>,
    parentResourceId: Option<string>, eventType: Option<string>, since: Option<int>, until: Option<int>, limit: nat)

  predicate Matches(q: EventQuery, e: Event) {
    (q.categories != {} ==> e.category in q.categories) &&
    (q.providers != {} ==> e.provider in q.providers) &&
    (q.resourceId.Some? ==> e.resourceId == q.resourceId.value) &&
    (q.parentResourceId.Some? ==> e.parentResourceId == q.parentResourceId.value) &&
    (q.eventType.Some? ==> e.eventType == q.eventType.value) &&
    (q.since.Some? ==> e.timestamp >= q.since.value) &&
    (q.until.Some? ==> e.timestamp <= q.until.value)
  }

  function NewestFirst(): (Event, Event) -> bool {
    (a: Event, b: Event) => a.timestamp >= b.timestamp
  }

  class InMemoryEventStore {
    var byId: map<(string, string), Event>
    var byResource: map<(string, string), seq<Event>>

    function Contents(): Journal
      reads this
    {
      Journal(byId, byResource)
    }

    constructor ()
      ensures Contents() == EmptyJournal
    {
      byId, byResource := map[], map[];
    }

    /** A stored event is overwritten whatever the versions say; the comparison has no effect. */
    method Upsert(e: Event)
      modifies this
      ensures Contents() == Upserted(old(Contents()), e)
    {
      if IdKey(e) in byId {
        var existing := byId[IdKey(e)];
        var replace := Replaces(existing, e);
      }
      byId := byId[IdKey(e) := e];
      var v := if ResourceKey(e) in byResource then byResource[ResourceKey(e)] else [];
      var pos := FindPosition(v, e.eventId);
      v := if pos < |v| then v[pos := e] else v + [e];
      byResource := byResource[ResourceKey(e) := Sort(v, ByTime())];
    }

    method FindPosition(v: seq<Event>, id: string) returns (pos: nat)
      ensures pos == Position(v, id)
    {
      pos := 0;
      while pos < |v| && v[pos].eventId != id
        invariant pos <= |v|
        invariant Position(v, id) == pos + Position(v[pos..], id)
      {
        assert v[pos..][1..] == v[pos + 1..];
        pos := pos + 1;
      }
    }

    method LatestStateForResource(ctx: QueryContext, resource: string) returns (r: Option<Event>)
      ensures r == Latest(Contents(), ctx, resource)
    {
      var key := (ctx.tenantId, resource);
      if key !in byResource {
        return None;
      }
      var v := byResource[key];
      r := None;
      for i := 0 to |v|
        invariant r == LastMax(ctx, v[..i])
      {
        assert v[..i + 1][..i] == v[..i];
        if Visible(ctx, v[i]) && (r.None? || KeyLe(r.value, v[i])) {
          r := Some(v[i]);
        }
      }
      assert v[..|v|] == v;
    }

    /** The entries are visited in the order of the hash table, here `visit`. */
    method ExportSnapshot(visit: seq<(string, string)>) returns (events: seq<Event>)
      requires multiset(visit) == multiset(byId.Keys)
      ensures |events| == |visit| && forall i :: 0 <= i < |visit| ==> visit[i] in byId && events[i] == byId[visit[i]]
    {
      events := [];
      for i := 0 to |visit|
        invariant |events| == i && forall k :: 0 <= k < i ==> visit[k] in byId && events[k] == byId[visit[k]]
      {
        assert visit[i] in multiset(visit);
        events := events + [byId[visit[i]]];
      }
    }

    method ImportSnapshot(events: seq<Event>)
      modifies this
      ensures Contents() == UpsertAll(old(Contents()), events)
    {
      for i := 0 to |events|
        invariant Contents() == UpsertAll(old(Contents()), events[..i])
      {
        assert events[..i + 1][..i] == events[..i];
        Upsert(events[i]);
      }
      assert events[..|events|] == events;
    }

    /** The matching visible events, newest first, or an error for a foreign tenant. */
    method Query(ctx: QueryContext, q: EventQuery, visit: seq<(string, string)>) returns (r: Option<seq<Event>>)
      requires multiset(visit) == multiset(byId.Keys)
      ensures r == if ctx.tenantId != q.tenantId then None else Some(Answer(byId, visit, ctx, q))
    {
      if ctx.tenantId != q.tenantId {
        return None;
      }
      var found := [];
      for i := 0 to |visit|
        invariant found == Found(byId, visit[..i], ctx, q)
      {
        assert visit[..i + 1][..i] == visit[..i];
        assert visit[i] in multiset(visit);
        var e := byId[visit[i]];
        if visit[i].0 == q.tenantId && Visible(ctx, e) && Matches(q, e) {
          found := found + [e];
        }
      }
      assert visit[..|visit|] == visit;
      r := Some(Take(Sort(found, NewestFirst()), if q.limit > 1 then q.limit else 1));
    }
  }

  function Found(byId: map<(string, string), Event>, visit: seq<(string, string)>, ctx: QueryContext,
      q: EventQuery): seq<Event> {
    if visit == [] then []
    else
      var k := visit[|visit| - 1];
      Found(byId, visit[..|visit| - 1], ctx, q) +
      if k in byId && k.0 == q.tenantId && Visible(ctx, byId[k]) && Matches(q, byId[k]) then [byId[k]] else []
  }

  function Answer(byId: map<(string, string), Event>, visit: seq<(string, string)>, ctx: QueryContext,
      q: EventQuery): seq<Event> {
    Take(Sort(Found(byId, visit, ctx, q), NewestFirst()), if q.limit > 1 then q.limit else 1)
  }

  // --- The two indexes agree --------------------------------------------------------

  ghost predicate DistinctIds(list: seq<Event>) {
    forall i, j :: 0 <= i < j < |list| ==> list[i].eventId != list[j].eventId
  }

  /** The list under `key` is, in time order, exactly the stored events of that resource. */
  ghost predicate Indexed(j: Journal, key: (string, string)) {
    var list := ListOf(j, key);
    (forall i, k :: 0 <= i < k < |list| ==> list[i].timestamp <= list[k].timestamp) && DistinctIds(list) &&
    forall e :: e in list <==> IdKey(e) in j.byId && j.byId[IdKey(e)] == e && ResourceKey(e) == key
  }

  ghost predicate Consistent(j: Journal) {
    (forall k :: k in j.byId ==> IdKey(j.byId[k]) == k) && forall key :: Indexed(j, key)
  }

  lemma TimeOrder()
    ensures Preorder(ByTime()) && Preorder(NewestFirst())
  {
  }

  lemma PutMembers(list: seq<Event>, e: Event)
    requires DistinctIds(list)
    ensures DistinctIds(Put(list, e))
    ensures forall x :: x in Put(list, e) <==> x == e || (x in list && x.eventId != e.eventId)
  {
    var k, r := Position(list, e.eventId), Put(list, e);
    forall x | x in list && x.eventId != e.eventId ensures x in r {
      var i :| 0 <= i < |list| && list[i] == x;
      assert r[i] == x;
    }
    assert e in r by {
      assert r[if k < |list| then k else |list|] == e;
    }
  }

  lemma SortKeepsIds(list: seq<Event>)
    requires DistinctIds(list)
    ensures var r := Sort(list, ByTime());
            SortedBy(r, ByTime()) && DistinctIds(r) && forall x :: x in r <==> x in list
  {
    TimeOrder();
    SortSorted(list, ByTime());
    Rearranged(list, Sort(list, ByTime()));
    forall i, j | 0 <= i < j < |Sort(list, ByTime())|
        ensures Sort(list, ByTime())[i].eventId != Sort(list, ByTime())[j].eventId {
      assert Sort(list, ByTime())[i] in list && Sort(list, ByTime())[j] in list;
    }
  }

  /**
   * Storing an event keeps the indexes in agreement exactly when its id is new or stays with its resource: the old
   * copy under another resource is never removed.
   */
  lemma UpsertKeepsConsistentIff(j: Journal, e: Event)
    requires Consistent(j)
    ensures Consistent(Upserted(j, e)) <==> (IdKey(e) in j.byId ==> ResourceKey(j.byId[IdKey(e)]) == ResourceKey(e))
  {
    var j' := Upserted(j, e);
    if IdKey(e) in j.byId && ResourceKey(j.byId[IdKey(e)]) != ResourceKey(e) {
      var stale := j.byId[IdKey(e)];
      assert Indexed(j, ResourceKey(stale));
      assert stale in ListOf(j', ResourceKey(stale));
      assert !Indexed(j', ResourceKey(stale));
    } else {
      forall key ensures Indexed(j', key) {
        UpsertIndexes(j, e, key);
      }
    }
  }

  lemma UpsertIndexes(j: Journal, e: Event, key: (string, string))
    requires Consistent(j) && (IdKey(e) in j.byId ==> ResourceKey(j.byId[IdKey(e)]) == ResourceKey(e))
    ensures Indexed(Upserted(j, e), key)
  {
    assert Indexed(j, key);
    if key == ResourceKey(e) {
      OwnListIndexes(j, e);
    } else {
      OtherListStays(j, e, key);
    }
  }

  lemma OtherListStays(j: Journal, e: Event, key: (string, string))
    requires Indexed(j, key) && key != ResourceKey(e)
    requires IdKey(e) in j.byId ==> ResourceKey(j.byId[IdKey(e)]) == ResourceKey(e)
    ensures Indexed(Upserted(j, e), key)
  {
    assert ListOf(Upserted(j, e), key) == ListOf(j, key);
  }

  lemma OwnListIndexes(j: Journal, e: Event)
    requires Indexed(j, ResourceKey(e))
    ensures Indexed(Upserted(j, e), ResourceKey(e))
  {
    var list := ListOf(j, ResourceKey(e));
    PutMembers(list, e);
    SortKeepsIds(Put(list, e));
    OwnMembers(j, e, list, Sort(Put(list, e), ByTime()));
  }

  lemma OwnMembers(j: Journal, e: Event, list: seq<Event>, r: seq<Event>)
    requires Indexed(j, ResourceKey(e)) && list == ListOf(j, ResourceKey(e))
    requires forall x :: x in r <==> x == e || (x in list && x.eventId != e.eventId)
    ensures var byId := j.byId[IdKey(e) := e];
            forall x :: x in r <==> IdKey(x) in byId && byId[IdKey(x)] == x && ResourceKey(x) == ResourceKey(e)
  {
  }

  // --- The latest state -------------------------------------------------------------

  /** The stored events of a resource the caller may see. */
  ghost predicate Candidate(j: Journal, ctx: QueryContext, resource: string, e: Event) {
    IdKey(e) in j.byId && j.byId[IdKey(e)] == e && ResourceKey(e) == (ctx.tenantId, resource) && Visible(ctx, e)
  }

  lemma {:induction false} LastMaxIsMax(ctx: QueryContext, list: seq<Event>)
    ensures var r := LastMax(ctx, list);
            (r.None? <==> forall e :: e in list ==> !Visible(ctx, e)) &&
            (r.Some? ==> r.value in list && Visible(ctx, r.value) && forall e :: e in list && Visible(ctx, e) ==>
                KeyLe(e, r.value))
  {
    if list != [] {
      var init, last := list[..|list| - 1], list[|list| - 1];
      LastMaxIsMax(ctx, init);
      assert list == init + [last];
      assert forall e :: e in list <==> e in init || e == last;
    }
  }

  /** With the indexes in agreement, the latest state is the greatest stored event the caller sees. */
  lemma LatestIsArgMax(j: Journal, ctx: QueryContext, resource: string)
    requires Consistent(j)
    ensures var r := Latest(j, ctx, resource);
            (r.None? <==> forall e :: !Candidate(j, ctx, resource, e)) &&
            (r.Some? ==> Candidate(j, ctx, resource, r.value) && forall e :: Candidate(j, ctx, resource, e) ==>
                e.timestamp < r.value.timestamp ||
                (e.timestamp == r.value.timestamp && e.sequence <= r.value.sequence))
  {
    var key := (ctx.tenantId, resource);
    assert Indexed(j, key);
    LastMaxIsMax(ctx, ListOf(j, key));
    forall e ensures Candidate(j, ctx, resource, e) <==> e in ListOf(j, key) && Visible(ctx, e) {
    }
  }

  ghost predicate DistinctKeys(j: Journal, ctx: QueryContext, resource: string) {
    forall a, b :: Candidate(j, ctx, resource, a) && Candidate(j, ctx, resource, b) && KeyLe(a, b) && KeyLe(b, a) ==>
        a == b
  }

  lemma LatestFromIds(a: Journal, b: Journal, ctx: QueryContext, resource: string)
    requires Consistent(a) && Consistent(b) && a.byId == b.byId && DistinctKeys(a, ctx, resource)
    ensures Latest(a, ctx, resource) == Latest(b, ctx, resource)
  {
    LatestIsArgMax(a, ctx, resource);
    LatestIsArgMax(b, ctx, resource);
    assert forall e :: Candidate(a, ctx, resource, e) <==> Candidate(b, ctx, resource, e);
  }

  /** Every event id comes with one event only. */
  ghost predicate OneEventPerId(es: seq<Event>) {
    forall a, b :: a in es && b in es && IdKey(a) == IdKey(b) ==> a == b
  }

  lemma {:induction false} StoredEvents(es: seq<Event>)
    requires OneEventPerId(es)
    ensures var j := UpsertAll(EmptyJournal, es);
            Consistent(j) && (forall e :: e in es <==> IdKey(e) in j.byId && j.byId[IdKey(e)] == e)
  {
    if es != [] {
      var init, last := es[..|es| - 1], es[|es| - 1];
      assert es == init + [last];
      assert forall e :: e in es <==> e in init || e == last;
      StoredEvents(init);
      var j := UpsertAll(EmptyJournal, init);
      assert IdKey(last) in j.byId ==> j.byId[IdKey(last)] in init;
      UpsertKeepsConsistentIff(j, last);
    }
  }

  /** The order in which events arrive, and how often, does not change the latest state of a resource without ties. */
  lemma ArrivalOrderIrrelevant(xs: seq<Event>, ys: seq<Event>, ctx: QueryContext, resource: string)
    requires OneEventPerId(xs) && (forall e :: e in xs <==> e in ys)
    requires DistinctKeys(UpsertAll(EmptyJournal, xs), ctx, resource)
    ensures Latest(UpsertAll(EmptyJournal, xs), ctx, resource) == Latest(UpsertAll(EmptyJournal, ys), ctx, resource)
  {
    StoredEvents(xs);
    StoredEvents(ys);
    SameIds(UpsertAll(EmptyJournal, xs).byId, UpsertAll(EmptyJournal, ys).byId);
    LatestFromIds(UpsertAll(EmptyJournal, xs), UpsertAll(EmptyJournal, ys), ctx, resource);
  }

  lemma SameIds(a: map<(string, string), Event>, b: map<(string, string), Event>)
    requires (forall k :: k in a ==> IdKey(a[k]) == k) && (forall k :: k in b ==> IdKey(b[k]) == k)
    requires forall e: Event :: (IdKey(e) in a && a[IdKey(e)] == e) <==> (IdKey(e) in b && b[IdKey(e)] == e)
    ensures a == b
  {
    forall k | k in a ensures k in b && b[k] == a[k] {
      assert IdKey(a[k]) == k;
    }
    forall k | k in b ensures k in a {
      assert IdKey(b[k]) == k;
    }
  }

  /** A restart rebuilds both indexes from the exported events, in whatever order they were written. */
  lemma {:induction false} RestartRebuilds(j: Journal, visit: seq<(string, string)>, events: seq<Event>)
    requires (forall k :: k in j.byId ==> IdKey(j.byId[k]) == k) && multiset(visit) == multiset(j.byId.Keys)
    requires |events| == |visit| && forall i :: 0 <= i < |visit| ==> visit[i] in j.byId && events[i] == j.byId[visit[i]]
    ensures Consistent(UpsertAll(EmptyJournal, events)) && UpsertAll(EmptyJournal, events).byId == j.byId
  {
    var r := UpsertAll(EmptyJournal, events);
    forall e ensures e in events <==> IdKey(e) in j.byId && j.byId[IdKey(e)] == e {
      if IdKey(e) in j.byId && j.byId[IdKey(e)] == e {
        assert IdKey(e) in multiset(visit);
        var i :| 0 <= i < |visit| && visit[i] == IdKey(e);
        assert events[i] == e;
      }
    }
    StoredEvents(events);
    SameIds(r.byId, j.byId);
  }

  /** So the latest states survive a restart wherever the indexes agreed and no two keys tie. */
  lemma RestartKeepsLatest(j: Journal, visit: seq<(string, string)>, events: seq<Event>, ctx: QueryContext,
      resource: string)
    requires Consistent(j) && DistinctKeys(j, ctx, resource) && multiset(visit) == multiset(j.byId.Keys)
    requires |events| == |visit| && forall i :: 0 <= i < |visit| ==> visit[i] in j.byId && events[i] == j.byId[visit[i]]
    ensures Latest(UpsertAll(EmptyJournal, events), ctx, resource) == Latest(j, ctx, resource)
  {
    RestartRebuilds(j, visit, events);
    LatestFromIds(j, UpsertAll(EmptyJournal, events), ctx, resource);
  }

  lemma OneElement(ctx: QueryContext, e: Event)
    ensures Sort(Put([], e), ByTime()) == [e]
    ensures Visible(ctx, e) ==> LastMax(ctx, [e]) == Some(e)
  {
    var none: seq<Event> := [];
    assert Put(none, e) == [e] && [e][..0] == none;
    assert Sort(none, ByTime()) == none && LastMax(ctx, none) == None;
  }

  lemma UpsertLast(j: Journal, es: seq<Event>, e: Event)
    ensures UpsertAll(j, es + [e]) == Upserted(UpsertAll(j, es), e)
  {
    assert (es + [e])[..|es|] == es;
  }

  lemma OneUpsert(j: Journal, e: Event)
    ensures UpsertAll(j, [e]) == Upserted(j, e)
  {
    var none: seq<Event> := [];
    UpsertLast(j, none, e);
    assert none + [e] == [e];
  }

  lemma TwoUpserts(e: Event, f: Event)
    ensures UpsertAll(EmptyJournal, [e]) == Upserted(EmptyJournal, e)
    ensures UpsertAll(EmptyJournal, [e, f]) == Upserted(Upserted(EmptyJournal, e), f)
  {
    OneUpsert(EmptyJournal, e);
    UpsertLast(EmptyJournal, [e], f);
    assert [e] + [f] == [e, f];
  }

  /** An event that moves to another resource is still served as the latest state of the old one. */
  lemma MovedEventStillServed(e: Event, moved: Event, ctx: QueryContext)
    requires IdKey(moved) == IdKey(e) && moved.resourceId != e.resourceId && e.tenantId == ctx.tenantId &&
        Visible(ctx, e)
    ensures var j := UpsertAll(EmptyJournal, [e, moved]);
            Latest(j, ctx, e.resourceId) == Some(e) && forall k :: k in j.byId ==> j.byId[k] != e
  {
    TwoUpserts(e, moved);
    OneElement(ctx, e);
    var j1 := Upserted(EmptyJournal, e);
    var j2 := Upserted(j1, moved);
    assert ListOf(j1, ResourceKey(e)) == [e];
    assert ResourceKey(moved) != ResourceKey(e);
    assert ListOf(j2, ResourceKey(e)) == [e];
    assert j2.byId == map[IdKey(e) := moved];
  }

  // --- Runs -------------------------------------------------------------------------

  lemma {:induction false} ByIdFrom(es: seq<Event>)
    ensures var m := UpsertAll(EmptyJournal, es).byId;
            forall k :: k in m ==> m[k] in es && IdKey(m[k]) == k
    ensures forall e :: e in es ==> IdKey(e) in UpsertAll(EmptyJournal, es).byId
  {
    if es != [] {
      var init, last := es[..|es| - 1], es[|es| - 1];
      ByIdFrom(init);
      LastApart(es);
      assert UpsertAll(EmptyJournal, es).byId == UpsertAll(EmptyJournal, init).byId[IdKey(last) := last];
    }
  }

  lemma LastApart(es: seq<Event>)
    requires es != []
    ensures forall x :: x in es <==> x in es[..|es| - 1] || x == es[|es| - 1]
  {
    assert es == es[..|es| - 1] + [es[|es| - 1]];
  }

  /** Arrivals of one id all belong to one resource. */
  ghost predicate KeepResources(es: seq<Event>) {
    forall a, b :: a in es && b in es && IdKey(a) == IdKey(b) ==> ResourceKey(a) == ResourceKey(b)
  }

  ghost predicate ConsistentAt(es: seq<Event>, n: nat)
    requires n <= |es|
  {
    Consistent(UpsertAll(EmptyJournal, es[..n]))
  }

  ghost predicate AlwaysConsistent(es: seq<Event>) {
    forall n :: 0 <= n <= |es| ==> ConsistentAt(es, n)
  }

  lemma ConsistentPrefix(es: seq<Event>, n: nat)
    requires n < |es|
    ensures ConsistentAt(es, n) <==> ConsistentAt(es[..|es| - 1], n)
  {
    assert es[..|es| - 1][..n] == es[..n];
  }

  lemma ConsistentFull(es: seq<Event>)
    ensures ConsistentAt(es, |es|) <==> Consistent(UpsertAll(EmptyJournal, es))
  {
    assert es[..|es|] == es;
  }

  lemma AlwaysConsistentLast(es: seq<Event>)
    requires es != []
    ensures AlwaysConsistent(es) <==> (AlwaysConsistent(es[..|es| - 1]) && ConsistentAt(es, |es|))
  {
    var init := es[..|es| - 1];
    if AlwaysConsistent(es) {
      forall n | 0 <= n <= |init| ensures ConsistentAt(init, n) {
        ConsistentPrefix(es, n);
      }
    } else if AlwaysConsistent(init) {
      var n :| 0 <= n <= |es| && !ConsistentAt(es, n);
      if n < |es| {
        ConsistentPrefix(es, n);
      }
    }
  }

  /** The last arrival stays with the resource its id has had so far. */
  ghost predicate LastKeepsResource(es: seq<Event>)
    requires es != []
  {
    var last := es[|es| - 1];
    forall x :: x in es[..|es| - 1] && IdKey(x) == IdKey(last) ==> ResourceKey(x) == ResourceKey(last)
  }

  lemma KeepResourcesLast(es: seq<Event>)
    requires es != []
    ensures KeepResources(es) <==> (KeepResources(es[..|es| - 1]) && LastKeepsResource(es))
  {
    LastApart(es);
  }

  lemma ConsistentLast(es: seq<Event>)
    requires es != [] && KeepResources(es[..|es| - 1]) && ConsistentAt(es[..|es| - 1], |es| - 1)
    ensures ConsistentAt(es, |es|) <==> LastKeepsResource(es)
  {
    var init, last := es[..|es| - 1], es[|es| - 1];
    var j := UpsertAll(EmptyJournal, init);
    ConsistentFull(init);
    ConsistentFull(es);
    UpsertKeepsConsistentIff(j, last);
    ByIdFrom(init);
  }

  /** Over a whole run the indexes agree throughout exactly when every event id keeps its resource. */
  lemma {:induction false} RunConsistentIff(es: seq<Event>)
    ensures AlwaysConsistent(es) <==> KeepResources(es)
  {
    if es == [] {
      assert es[..0] == [];
    } else {
      RunConsistentIff(es[..|es| - 1]);
      AlwaysConsistentLast(es);
      KeepResourcesLast(es);
      if AlwaysConsistent(es[..|es| - 1]) {
        ConsistentLast(es);
      }
    }
  }

  /** The versions the replacement rule would keep. */
  function ByRule(es: seq<Event>): map<(string, string), Event> {
    if es == [] then map[]
    else
      var m, e := ByRule(es[..|es| - 1]), es[|es| - 1];
      if IdKey(e) in m && !Replaces(m[IdKey(e)], e) then m else m[IdKey(e) := e]
  }

  /** The rule would refuse arrival `k` in favour of what is stored at that time. */
  ghost predicate Refused(es: seq<Event>, k: nat)
    requires k < |es|
  {
    var m := UpsertAll(EmptyJournal, es[..k]).byId;
    IdKey(es[k]) in m && !Replaces(m[IdKey(es[k])], es[k])
  }

  ghost predicate NoneRefused(es: seq<Event>) {
    forall k :: 0 <= k < |es| ==> !Refused(es, k)
  }

  ghost predicate ByRuleAt(es: seq<Event>, n: nat)
    requires n <= |es|
  {
    UpsertAll(EmptyJournal, es[..n]).byId == ByRule(es[..n])
  }

  ghost predicate AlwaysByRule(es: seq<Event>) {
    forall n :: 0 <= n <= |es| ==> ByRuleAt(es, n)
  }

  lemma RulePrefix(es: seq<Event>, n: nat)
    requires n < |es|
    ensures ByRuleAt(es, n) <==> ByRuleAt(es[..|es| - 1], n)
  {
    assert es[..|es| - 1][..n] == es[..n];
  }

  lemma RefusedPrefix(es: seq<Event>, n: nat)
    requires n < |es| - 1
    ensures Refused(es, n) <==> Refused(es[..|es| - 1], n)
  {
    assert es[..|es| - 1][..n] == es[..n];
  }

  lemma AlwaysByRuleLast(es: seq<Event>)
    requires es != []
    ensures AlwaysByRule(es) <==> (AlwaysByRule(es[..|es| - 1]) && ByRuleAt(es, |es|))
  {
    var init := es[..|es| - 1];
    if AlwaysByRule(es) {
      forall n | 0 <= n <= |init| ensures ByRuleAt(init, n) {
        RulePrefix(es, n);
      }
    } else if AlwaysByRule(init) {
      var n :| 0 <= n <= |es| && !ByRuleAt(es, n);
      if n < |es| {
        RulePrefix(es, n);
      }
    }
  }

  lemma NoneRefusedLast(es: seq<Event>)
    requires es != []
    ensures NoneRefused(es) <==> (NoneRefused(es[..|es| - 1]) && !Refused(es, |es| - 1))
  {
    if NoneRefused(es) {
      NoneRefusedBefore(es);
    } else if NoneRefused(es[..|es| - 1]) {
      var k :| 0 <= k < |es| && Refused(es, k);
      if k < |es| - 1 {
        RefusedPrefix(es, k);
      }
    }
  }

  lemma NoneRefusedBefore(es: seq<Event>)
    requires es != [] && NoneRefused(es)
    ensures NoneRefused(es[..|es| - 1]) && !Refused(es, |es| - 1)
  {
    var init := es[..|es| - 1];
    forall k | 0 <= k < |init| ensures !Refused(init, k) {
      RefusedPrefix(es, k);
    }
  }

  lemma ByRuleLast(es: seq<Event>)
    requires es != [] && ByRuleAt(es, |es| - 1)
    ensures ByRuleAt(es, |es|) <==> !Refused(es, |es| - 1)
  {
    var m, e := ByRule(es[..|es| - 1]), es[|es| - 1];
    assert es[..|es|] == es;
    assert Replaces(e, e);
    assert UpsertAll(EmptyJournal, es).byId == m[IdKey(e) := e];
    if m[IdKey(e) := e] == m {
      assert m[IdKey(e)] == m[IdKey(e) := e][IdKey(e)];
    }
  }

  /**
   * The store holds what the rule would keep, throughout a run, exactly when no arrival is one the rule would refuse.
   */
  lemma {:induction false} KeepsRuleIff(es: seq<Event>)
    ensures AlwaysByRule(es) <==> NoneRefused(es)
  {
    if es == [] {
      assert es[..0] == [];
    } else {
      KeepsRuleIff(es[..|es| - 1]);
      AlwaysByRuleLast(es);
      NoneRefusedLast(es);
      RulePrefix(es, |es| - 1);
      if AlwaysByRule(es[..|es| - 1]) {
        ByRuleLast(es);
      }
    }
  }

  /** A lower version that arrives later does overwrite a higher one. */
  lemma LowerVersionOverwrites(high: Event, low: Event)
    requires IdKey(low) == IdKey(high) && low.aclVersion < high.aclVersion && low.sequence < high.sequence
    ensures !Replaces(high, low) && ByRule([high, low])[IdKey(high)] == high
    ensures UpsertAll(EmptyJournal, [high, low]).byId[IdKey(high)] == low
  {
    TwoUpserts(high, low);
    var none: seq<Event> := [];
    assert [high][..0] == none && [high, low][..1] == [high];
    assert ByRule(none) == map[] && ByRule([high]) == map[IdKey(high) := high];
  }

  // --- Queries ----------------------------------------------------------------------

  /** The caller may see the event, and every part of the query that is given lets it through. */
  ghost predicate Wanted(ctx: QueryContext, q: EventQuery, e: Event) {
    && e.tenantId == q.tenantId && ctx.tenantId != ""
    && (e.isPrivate ==> exists g :: g in e.allowedGroups && g in ctx.groupIds)
    && (q.categories == {} || e.category in q.categories) && (q.providers == {} || e.provider in q.providers)
    && q.resourceId in {None, Some(e.resourceId)} && q.parentResourceId in {None, Some(e.parentResourceId)}
    && q.eventType in {None, Some(e.eventType)}
    && (q.since.None? || q.since.value <= e.timestamp) && (q.until.None? || e.timestamp <= q.until.value)
  }

  ghost function Selected(byId: map<(string, string), Event>, ctx: QueryContext, q: EventQuery): set<Event> {
    set k | k in byId && Wanted(ctx, q, byId[k]) :: byId[k]
  }

  ghost predicate KeysFit(byId: map<(string, string), Event>) {
    forall k :: k in byId ==> IdKey(byId[k]) == k
  }

  lemma WantedIff(byId: map<(string, string), Event>, k: (string, string), ctx: QueryContext, q: EventQuery)
    requires KeysFit(byId) && k in byId
    ensures Wanted(ctx, q, byId[k]) <==> k.0 == q.tenantId && Visible(ctx, byId[k]) && Matches(q, byId[k])
  {
  }

  lemma {:induction false} FoundOnce(byId: map<(string, string), Event>, visit: seq<(string, string)>,
      ctx: QueryContext, q: EventQuery)
    requires KeysFit(byId) && NoRepeats(visit)
    ensures NoRepeats(Found(byId, visit, ctx, q))
    ensures forall e :: e in Found(byId, visit, ctx, q) <==> e in Selected(byId, ctx, q) && IdKey(e) in visit
  {
    if visit != [] {
      var init, k := visit[..|visit| - 1], visit[|visit| - 1];
      FoundOnce(byId, init, ctx, q);
      if k in byId {
        WantedIff(byId, k, ctx, q);
      }
      assert visit == init + [k];
      assert forall x :: x in visit <==> x in init || x == k;
    }
  }

  lemma FoundIsSelected(byId: map<(string, string), Event>, visit: seq<(string, string)>, ctx: QueryContext,
      q: EventQuery)
    requires KeysFit(byId) && multiset(visit) == multiset(byId.Keys)
    ensures multiset(Found(byId, visit, ctx, q)) == multiset(Selected(byId, ctx, q))
  {
    ArrangedOnce(visit, byId.Keys);
    FoundOnce(byId, visit, ctx, q);
    forall e | e in Selected(byId, ctx, q) ensures IdKey(e) in visit {
      assert IdKey(e) in multiset(visit);
    }
    ArrangementOf(Found(byId, visit, ctx, q), Selected(byId, ctx, q));
  }

  /**
   * Whatever the order of the hash table, a query answers with wanted events, each once, newest first: all of them or
   * as many as the limit allows, and none left out is newer than one returned.
   */
  lemma QueryIsNewestSelected(byId: map<(string, string), Event>, visit: seq<(string, string)>, ctx: QueryContext,
      q: EventQuery)
    requires KeysFit(byId) && multiset(visit) == multiset(byId.Keys)
    ensures var n, r, all := if q.limit > 1 then q.limit else 1, Answer(byId, visit, ctx, q), Selected(byId, ctx, q);
            NoRepeats(r) && (forall e :: e in r ==> e in all) && |r| == (if |all| < n then |all| else n) &&
            (forall i, j :: 0 <= i < j < |r| ==> r[i].timestamp >= r[j].timestamp) &&
            (forall e, x :: e in all && e !in r && x in r ==> x.timestamp >= e.timestamp)
  {
    var n, all := if q.limit > 1 then q.limit else 1, Selected(byId, ctx, q);
    var found, r := Found(byId, visit, ctx, q), Answer(byId, visit, ctx, q);
    FoundIsSelected(byId, visit, ctx, q);
    TimeOrder();
    TakeOfSort(found, NewestFirst(), n);
    ArrangedOnce(r, all);
    assert |multiset(all)| == |all|;
    forall e | e in r ensures e in all {
      assert e in multiset(r);
    }
    forall e, x | e in all && e !in r && x in r ensures x.timestamp >= e.timestamp {
      assert e in multiset(all) - multiset(r);
      assert NewestFirst()(x, e);
    }
    forall i, j | 0 <= i < j < |r| ensures r[i].timestamp >= r[j].timestamp {
      assert NewestFirst()(r[i], r[j]);
    }
  }
}
