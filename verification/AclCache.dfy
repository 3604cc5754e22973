/** Group membership with versions and invalidations, and the read-through cache in front of it. */
module AclCache {
  import opened GraphModel

  /** Tenant and user. */
  type Key = (string, string)

  datatype Invalidation = Invalidation(key: Key, version: nat)

  function GroupsOf(users: map<Key, set<string>>, key: Key): set<string> {
    if key in users then users[key] else {}
  }

  function VersionOf(versions: map<string, nat>, tenant: string): nat {
    if tenant in versions then versions[tenant] else 0
  }

  datatype Store = Store(users: map<Key, set<string>>, versions: map<string, nat>, sent: seq<Invalidation>)

  /** What a change does: new groups, the next version of the tenant, one invalidation of the user. */
  function Changed(s: Store, key: Key, groups: set<string>): Store {
    var next := VersionOf(s.versions, key.0) + 1;
    Store(s.users[key := groups], s.versions[key.0 := next], s.sent + [Invalidation(key, next)])
  }

  /** An unknown user is an error and changes nothing. */
  function ChangedIfKnown(s: Store, key: Key, groups: set<string>): Store {
    if key in s.users then Changed(s, key, groups) else s
  }

  class InMemoryAclStore {
    var users: map<Key, set<string>>
    var versions: map<string, nat>
    /** Everything sent on the invalidation channel. */
    var sent: seq<Invalidation>

    constructor ()
      ensures users == map[] && versions == map[] && sent == []
    {
      users, versions, sent := map[], map[], [];
    }

    function Contents(): Store
      reads this
    {
      Store(users, versions, sent)
    }

    method EnsureUser(key: Key)
      modifies `users
      ensures users == if key in old(users) then old(users) else old(users)[key := {}]
    {
      if key !in users {
        users := users[key := {}];
      }
    }

    method BumpAndPublish(key: Key) returns (v: nat)
      modifies `versions, `sent
      ensures v == VersionOf(old(versions), key.0) + 1
      ensures versions == old(versions)[key.0 := v] && sent == old(sent) + [Invalidation(key, v)]
    {
      v := VersionOf(versions, key.0) + 1;
      versions := versions[key.0 := v];
      sent := sent + [Invalidation(key, v)];
    }

    method SetUserGroups(key: Key, groups: set<string>) returns (v: Option<nat>)
      modifies this
      ensures Contents() == ChangedIfKnown(old(Contents()), key, groups)
      ensures v == if key in old(users) then Some(VersionOf(versions, key.0)) else None
    {
      if key !in users {
        return None;
      }
      users := users[key := groups];
      var n := BumpAndPublish(key);
      return Some(n);
    }

    method AddUserToGroup(key: Key, group: string) returns (v: Option<nat>)
      modifies this
      ensures Contents() == ChangedIfKnown(old(Contents()), key, GroupsOf(old(users), key) + {group})
      ensures v == if key in old(users) then Some(VersionOf(versions, key.0)) else None
    {
      if key !in users {
        return None;
      }
      users := users[key := users[key] + {group}];
      var n := BumpAndPublish(key);
      return Some(n);
    }

    method RemoveUserFromGroup(key: Key, group: string) returns (v: Option<nat>)
      modifies this
      ensures Contents() == ChangedIfKnown(old(Contents()), key, GroupsOf(old(users), key) - {group})
      ensures v == if key in old(users) then Some(VersionOf(versions, key.0)) else None
    {
      if key !in users {
        return None;
      }
      users := users[key := users[key] - {group}];
      var n := BumpAndPublish(key);
      return Some(n);
    }

    method ApplyRevocation(key: Key, group: string, change: string) returns (v: Option<nat>)
      modifies this
      ensures Contents() == if change == "removed_from_group"
          then ChangedIfKnown(old(Contents()), key, GroupsOf(old(users), key) - {group})
                            else if change == "added_to_group"
                                then ChangedIfKnown(old(Contents()), key, GroupsOf(old(users), key) + {group})
                            else old(Contents())
      ensures v.Some? <==> key in old(users) && change in {"removed_from_group", "added_to_group"}
    {
      if change == "removed_from_group" {
        v := RemoveUserFromGroup(key, group);
      } else if change == "added_to_group" {
        v := AddUserToGroup(key, group);
      } else {
        v := None;
      }
    }
  }

  /** Cached groups are current, or an invalidation of the user has not been read yet. */
  ghost predicate UpToDate(users: map<Key, set<string>>, cache: map<Key, set<string>>, unread: seq<Invalidation>) {
    forall k :: k in cache ==> cache[k] == GroupsOf(users, k) || exists i :: 0 <= i < |unread| && unread[i].key == k
  }

  class Cache {
    const inner: InMemoryAclStore
    var cache: map<Key, set<string>>
    /** How much of the channel the listener has read. */
    var received: nat

    ghost predicate Valid()
      reads this, inner
    {
      received <= |inner.sent| && UpToDate(inner.users, cache, inner.sent[received..])
    }

    constructor (inner: InMemoryAclStore)
      ensures Valid() && cache == map[] && this.inner == inner && received == |inner.sent|
    {
      this.inner, cache, received := inner, map[], |inner.sent|;
    }

    method GetUserGroups(key: Key) returns (groups: set<string>)
      requires Valid()
      modifies `cache
      ensures Valid() && groups == if key in old(cache) then old(cache)[key] else GroupsOf(inner.users, key)
      ensures cache == old(cache)[key := groups]
      ensures received == |inner.sent| ==> groups == GroupsOf(inner.users, key)
    {
      if key in cache {
        return cache[key];
      }
      groups := GroupsOf(inner.users, key);
      cache := cache[key := groups];
    }

    /** One turn of the background listener. */
    method Listen()
      requires Valid() && received < |inner.sent|
      modifies this
      ensures Valid() && received == old(received) + 1 && cache == old(cache) - {inner.sent[old(received)].key}
    {
      ghost var unread := inner.sent[received..];
      var key := inner.sent[received].key;
      cache := cache - {key};
      received := received + 1;
      forall k | k in cache && cache[k] != GroupsOf(inner.users, k)
        ensures exists i :: 0 <= i < |inner.sent[received..]| && inner.sent[received..][i].key == k
      {
        var i :| 0 <= i < |unread| && unread[i].key == k;
        assert inner.sent[received..][i - 1] == unread[i];
      }
    }
  }

  /** A finished change of the store leaves the cache up to date, because its invalidation is on the way. */
  lemma ChangeIsAnnounced(s: Store, cache: map<Key, set<string>>, received: nat, key: Key, groups: set<string>)
    requires received <= |s.sent| && UpToDate(s.users, cache, s.sent[received..])
    ensures var s' := ChangedIfKnown(s, key, groups);
            |s'.sent| >= received && UpToDate(s'.users, cache, s'.sent[received..])
  {
    var s' := ChangedIfKnown(s, key, groups);
    var unread, more := s.sent[received..], s'.sent[received..];
    forall k | k in cache && cache[k] != GroupsOf(s'.users, k) ensures exists i :: 0 <= i < |more| && more[i].key == k {
      if k == key && key in s.users {
        assert more[|unread|].key == k;
      } else {
        var i :| 0 <= i < |unread| && unread[i].key == k;
        assert more[i].key == k;
      }
    }
  }

  // --- Interleavings ----------------------------------------------------------------

  datatype Fill = Fill(key: Key, groups: set<string>)

  /**
   * `changing` are the changes between their write and their invalidation, `filling` the cache misses between the
   * read of the store and the insertion into the cache.
   */
  datatype World = World(
    users: map<Key, set<string>>, changing: map<nat, Key>, subscribed: bool, queue: seq<Key>,
    cache: map<Key, set<string>>, filling: map<nat, Fill>)

  datatype Label =
    | Subscribe
    | Write(op: nat, key: Key, groups: set<string>)
    | Publish(op: nat)
    | Load(reader: nat, key: Key)
    | Insert(reader: nat)
    | Listen

  function Act(w: World, l: Label): World {
    match l
    case Subscribe => w.(subscribed := true)
    case Write(op, key, groups) =>
      if op in w.changing || key !in w.users then w
      else w.(users := w.users[key := groups], changing := w.changing[op := key])
    case Publish(op) =>
      if op !in w.changing then w
      else w.(changing := w.changing - {op}, queue := if w.subscribed then w.queue + [w.changing[op]] else w.queue)
    case Load(r, key) =>
      if r in w.filling || key in w.cache then w else w.(filling := w.filling[r := Fill(key, GroupsOf(w.users, key))])
    case Insert(r) =>
      if r !in w.filling then w
      else w.(cache := w.cache[w.filling[r].key := w.filling[r].groups], filling := w.filling - {r})
    case Listen =>
      if w.queue == [] then w else w.(cache := w.cache - {w.queue[0]}, queue := w.queue[1..])
  }

  function RunFrom(w: World, labels: seq<Label>): World {
    if labels == [] then w else Act(RunFrom(w, labels[..|labels| - 1]), labels[|labels| - 1])
  }

  /** An invalidation of the user is queued, or about to be. */
  ghost predicate Pending(w: World, k: Key) {
    k in w.queue || exists op :: op in w.changing && w.changing[op] == k
  }

  ghost predicate Coherent(w: World) {
    forall k :: k in w.cache ==> w.cache[k] == GroupsOf(w.users, k) || Pending(w, k)
  }

  /** The same for values on their way into the cache. */
  ghost predicate FillsFresh(w: World) {
    forall r :: r in w.filling ==>
        w.filling[r].groups == GroupsOf(w.users, w.filling[r].key) || Pending(w, w.filling[r].key)
  }

  /** The user whose invalidation this step uses up: it is read, or it is sent while nobody has subscribed. */
  function UsedUp(w: World, l: Label): Option<Key> {
    if l.Listen? && w.queue != [] then Some(w.queue[0])
    else if l.Publish? && l.op in w.changing && !w.subscribed then Some(w.changing[l.op])
    else None
  }

  predicate StaleCached(w: World, k: Key) {
    k in w.cache && w.cache[k] != GroupsOf(w.users, k)
  }

  predicate StaleFill(w: World, k: Key) {
    exists r :: r in w.filling && w.filling[r].key == k && w.filling[r].groups != GroupsOf(w.users, k)
  }

  /**
   * The step uses up no invalidation that is the last one of its user while an old value depends on it: a value on its
   * way into the cache, or, when the invalidation is sent to nobody, a cached one.
   */
  ghost predicate Calm(w: World, l: Label) {
    var used := UsedUp(w, l);
    used.Some? && (StaleFill(w, used.value) || (l.Publish? && StaleCached(w, used.value))) ==>
      Pending(Act(w, l), used.value)
  }

  lemma PendingStays(w: World, l: Label, k: Key)
    requires Pending(w, k) && UsedUp(w, l) != Some(k)
    ensures Pending(Act(w, l), k)
  {
    var w' := Act(w, l);
    if k in w.queue {
      if l.Listen? {
        assert w.queue == [w.queue[0]] + w.queue[1..];
      }
      assert k in w'.queue;
    } else {
      var op :| op in w.changing && w.changing[op] == k;
      if l == Publish(op) {
        assert w'.queue[|w.queue|] == k;
      } else {
        assert op in w'.changing && w'.changing[op] == k;
      }
    }
  }

  /**
   * Whatever was current or announced before a step is so after it, unless the step uses up an invalidation of the
   * user.
   */
  lemma ValueStays(w: World, l: Label, k: Key, groups: set<string>)
    requires groups == GroupsOf(w.users, k) || Pending(w, k)
    requires UsedUp(w, l) != Some(k)
    ensures groups == GroupsOf(Act(w, l).users, k) || Pending(Act(w, l), k)
  {
    if Pending(w, k) {
      PendingStays(w, l, k);
    } else if l.Write? && l.key == k && Act(w, l) != w {
      assert l.op in Act(w, l).changing && Act(w, l).changing[l.op] == k;
    }
  }

  lemma CalmStepKeepsCoherent(w: World, l: Label)
    requires Coherent(w) && FillsFresh(w) && Calm(w, l)
    ensures Coherent(Act(w, l))
  {
    var w' := Act(w, l);
    forall k | k in w'.cache ensures w'.cache[k] == GroupsOf(w'.users, k) || Pending(w', k) {
      if UsedUp(w, l) != Some(k) {
        ValueStays(w, l, k, w'.cache[k]);
      }
    }
  }

  lemma CalmStepKeepsFresh(w: World, l: Label)
    requires FillsFresh(w) && Calm(w, l)
    ensures FillsFresh(Act(w, l))
  {
    var w' := Act(w, l);
    forall r | r in w'.filling ensures w'.filling[r].groups == GroupsOf(w'.users, w'.filling[r].key) ||
        Pending(w', w'.filling[r].key) {
      if r in w.filling && UsedUp(w, l) != Some(w.filling[r].key) {
        ValueStays(w, l, w.filling[r].key, w.filling[r].groups);
      }
    }
  }

  /** A step keeps every value current or announced exactly when it is calm. */
  lemma CalmIff(w: World, l: Label)
    requires Coherent(w) && FillsFresh(w)
    ensures Coherent(Act(w, l)) && FillsFresh(Act(w, l)) <==> Calm(w, l)
  {
    if Calm(w, l) {
      CalmStepKeepsCoherent(w, l);
      CalmStepKeepsFresh(w, l);
    } else if StaleFill(w, UsedUp(w, l).value) {
      var r :| r in w.filling && w.filling[r].key == UsedUp(w, l).value &&
          w.filling[r].groups != GroupsOf(w.users, w.filling[r].key);
      assert r in Act(w, l).filling;
    }
  }

  ghost predicate AllCalm(w: World, labels: seq<Label>) {
    forall k :: 0 <= k < |labels| ==> Calm(RunFrom(w, labels[..k]), labels[k])
  }

  ghost predicate CoherentAt(w: World, labels: seq<Label>, n: nat)
    requires n <= |labels|
  {
    Coherent(RunFrom(w, labels[..n])) && FillsFresh(RunFrom(w, labels[..n]))
  }

  lemma {:induction false} CoherentUpTo(users: map<Key, set<string>>, labels: seq<Label>, n: nat)
    requires n <= |labels| && forall k :: 0 <= k < n ==> Calm(RunFrom(Start(users), labels[..k]), labels[k])
    ensures CoherentAt(Start(users), labels, n)
  {
    if n > 0 {
      CoherentUpTo(users, labels, n - 1);
      Unroll(Start(users), labels, n - 1);
      CalmIff(RunFrom(Start(users), labels[..n - 1]), labels[n - 1]);
    }
  }

  /** Throughout a run every value is current or announced, exactly when every step of the run is calm. */
  lemma CoherentRunIff(users: map<Key, set<string>>, labels: seq<Label>)
    ensures (forall n :: 0 <= n <= |labels| ==> CoherentAt(Start(users), labels, n)) <==> AllCalm(Start(users), labels)
  {
    if AllCalm(Start(users), labels) {
      forall n | 0 <= n <= |labels| ensures CoherentAt(Start(users), labels, n) {
        CoherentUpTo(users, labels, n);
      }
    }
    if forall n :: 0 <= n <= |labels| ==> CoherentAt(Start(users), labels, n) {
      forall k | 0 <= k < |labels| ensures Calm(RunFrom(Start(users), labels[..k]), labels[k]) {
        assert CoherentAt(Start(users), labels, k) && CoherentAt(Start(users), labels, k + 1);
        Unroll(Start(users), labels, k);
        CalmIff(RunFrom(Start(users), labels[..k]), labels[k]);
      }
    }
  }

  function Start(users: map<Key, set<string>>): World {
    World(users, map[], false, [], map[], map[])
  }

  /** In a calm run, a cache with no invalidation outstanding serves exactly the groups of the store. */
  lemma DrainedServesCurrent(users: map<Key, set<string>>, labels: seq<Label>, k: Key)
    requires AllCalm(Start(users), labels)
    requires var w := RunFrom(Start(users), labels); w.queue == [] && w.changing == map[] && k in w.cache
    ensures var w := RunFrom(Start(users), labels); w.cache[k] == GroupsOf(w.users, k)
  {
    CoherentRunIff(users, labels);
    assert CoherentAt(Start(users), labels, |labels|) && labels[..|labels|] == labels;
    assert !Pending(RunFrom(Start(users), labels), k);
  }

  /** Fills in one step, and a listener that subscribed before the first change, make every run calm. */
  lemma AtomicFillsAreCalm(users: map<Key, set<string>>, labels: seq<Label>)
    requires forall k :: 0 <= k < |labels| && labels[k].Listen? ==> RunFrom(Start(users), labels[..k]).filling == map[]
    requires forall k :: 0 <= k < |labels| && labels[k].Publish? ==> RunFrom(Start(users), labels[..k]).subscribed
    ensures AllCalm(Start(users), labels)
  {
    forall k | 0 <= k < |labels| ensures Calm(RunFrom(Start(users), labels[..k]), labels[k]) {
    }
  }

  // --- The race ---------------------------------------------------------------------

  /** A cached value that no outstanding invalidation will correct. */
  ghost predicate StaleForGood(w: World, k: Key) {
    k in w.cache && w.cache[k] != GroupsOf(w.users, k) && !Pending(w, k)
  }

  /** A value on its way into the cache whose insertion leaves the cache wrong for good. */
  ghost predicate WillBeStale(w: World, r: nat) {
    r in w.filling && StaleForGood(Act(w, Insert(r)), w.filling[r].key)
  }

  /** A step that is not calm leaves a value in the cache, or on its way into it, that nothing will correct any more. */
  lemma UncalmStepLosesInvalidation(w: World, l: Label)
    requires Coherent(w) && FillsFresh(w) && !Calm(w, l)
    ensures (exists k :: StaleForGood(Act(w, l), k)) || exists r :: WillBeStale(Act(w, l), r)
  {
    var w', k := Act(w, l), UsedUp(w, l).value;
    if StaleFill(w, k) {
      var r :| r in w.filling && w.filling[r].key == k && w.filling[r].groups != GroupsOf(w.users, k);
      assert !Pending(Act(w', Insert(r)), k);
      assert WillBeStale(w', r);
    } else {
      assert StaleForGood(w', k);
    }
  }

  function Overtaken(key: Key): seq<Label> {
    [Subscribe, Load(0, key), Write(0, key, {}), Publish(0), Listen, Insert(0)]
  }

  lemma ListenedTooEarly(key: Key, group: string)
    ensures RunFrom(Start(map[key := {group}]), Overtaken(key)[..4])
         == World(map[key := {}], map[], true, [key], map[], map[0 := Fill(key, {group})])
  {
    var s, labels := Start(map[key := {group}]), Overtaken(key);
    Unroll(s, labels, 0);
    Unroll(s, labels, 1);
    Unroll(s, labels, 2);
    Unroll(s, labels, 3);
  }

  /** The code as it is can do this: a reader overtaken by a revocation caches the group that was taken away. */
  lemma RevokedGroupServed(key: Key, group: string)
    ensures var w := RunFrom(Start(map[key := {group}]), Overtaken(key));
            StaleForGood(w, key) && group in w.cache[key] && GroupsOf(w.users, key) == {}
  {
    var s, labels := Start(map[key := {group}]), Overtaken(key);
    ListenedTooEarly(key, group);
    Unroll(s, labels, 4);
    Unroll(s, labels, 5);
    assert labels[..6] == labels;
  }

  lemma Unroll(w: World, labels: seq<Label>, k: nat)
    requires k < |labels|
    ensures RunFrom(w, labels[..k + 1]) == Act(RunFrom(w, labels[..k]), labels[k])
  {
    assert labels[..k + 1][..k] == labels[..k];
  }
}
