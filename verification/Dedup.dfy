/** Claims on event ids that expire after a while, with lazy garbage collection. */
module Dedup {
  import opened Numbers

  /** A claim is granted when nobody holds an unexpired one. */
  predicate Grants(claims: map<string, Instant>, ttl: nat, id: string, now: Instant) {
    id in claims ==> Elapsed(now, claims[id]) >= ttl
  }

  function AfterClaim(claims: map<string, Instant>, ttl: nat, id: string, now: Instant): map<string, Instant> {
    if Grants(claims, ttl, id, now) then claims[id := now] else claims
  }

  /** The queue is in time order and not ahead of the clock. */
  ghost predicate Ordered(order: seq<(string, Instant)>, clock: Instant) {
    (forall i, j :: 0 <= i < j < |order| ==> order[i].1 <= order[j].1) &&
    (forall i :: 0 <= i < |order| ==> order[i].1 <= clock)
  }

  ghost predicate Queued(entries: map<string, Instant>, order: seq<(string, Instant)>) {
    forall id :: id in entries ==> (id, entries[id]) in order
  }

  /** The entries are claims, and the claims without an entry have expired. */
  ghost predicate Covers(entries: map<string, Instant>, claims: map<string, Instant>, ttl: nat, clock: Instant) {
    (forall id :: id in entries ==> id in claims && claims[id] == entries[id]) &&
    (forall id :: id in claims && id !in entries ==> Elapsed(clock, claims[id]) >= ttl)
  }

  /** Queue and entries keep track of the claims. */
  ghost predicate Tracks(entries: map<string, Instant>, order: seq<(string, Instant)>, claims: map<string, Instant>,
      ttl: nat, clock: Instant) {
    Ordered(order, clock) && Queued(entries, order) && Covers(entries, claims, ttl, clock)
  }

  class InMemoryDedup {
    const ttl: nat
    var entries: map<string, Instant>
    /** Insertion order, with stale records of released or re-claimed ids. */
    var order: seq<(string, Instant)>
    /** The time of the last granted claim of every id not released since; never collected. */
    ghost var claims: map<string, Instant>
    ghost var clock: Instant

    ghost predicate Valid()
      reads this
    {
      Tracks(entries, order, claims, ttl, clock)
    }

    constructor (ttl: nat)
      ensures Valid() && claims == map[] && clock == 0 && this.ttl == ttl
    {
      this.ttl := ttl;
      entries, order, claims, clock := map[], [], map[], 0;
    }

    /** Drops every expired entry and touches no claim that still counts. */
    method Gc(now: Instant)
      requires Valid() && clock <= now
      modifies this
      ensures Valid() && claims == old(claims) && clock == now
      ensures forall id :: id in entries <==> id in claims && Elapsed(now, claims[id]) < ttl
    {
      ghost var left := Collected(entries, order, ttl, now);
      CollectedTracks(entries, order, claims, ttl, clock, now);
      clock := now;
      while order != []
        invariant Collected(entries, order, ttl, now) == left
        invariant claims == old(claims) && clock == now
        decreases |order|
      {
        var (id, inserted) := order[0];
        if Elapsed(now, inserted) < ttl {
          break;
        }
        order := order[1..];
        if id in entries && Elapsed(now, entries[id]) >= ttl {
          entries := entries - {id};
        }
      }
    }

    /** The clock is read once for the collection and again for the claim. */
    method TryClaim(id: string, collectedAt: Instant, now: Instant) returns (first: bool)
      requires Valid() && clock <= collectedAt <= now
      modifies this
      ensures Valid() && clock == now
      ensures first == Grants(old(claims), ttl, id, now)
      ensures claims == AfterClaim(old(claims), ttl, id, now)
      ensures forall other :: other in entries && other != id ==> Elapsed(collectedAt, entries[other]) < ttl
    {
      Gc(collectedAt);
      SameAnswer(entries, claims, ttl, id, collectedAt, now);
      Requeued(entries, order, id, now);
      clock := now;
      if id in entries && Elapsed(now, entries[id]) < ttl {
        return false;
      }
      entries, order, claims := entries[id := now], order + [(id, now)], claims[id := now];
      return true;
    }

    method Release(id: string)
      requires Valid()
      modifies this
      ensures Valid() && claims == old(claims) - {id} && clock == old(clock)
    {
      entries, claims := entries - {id}, claims - {id};
    }

    method LenApprox() returns (n: nat)
      requires Valid()
      ensures n <= |claims|
    {
      n := |entries|;
      assert entries.Keys <= claims.Keys;
      SubsetSize(entries.Keys, claims.Keys);
      assert |entries.Keys| == |entries| && |claims.Keys| == |claims|;
    }
  }

  /** Time passes. */
  lemma ClockAdvances(entries: map<string, Instant>, order: seq<(string, Instant)>, claims: map<string, Instant>,
      ttl: nat, clock: Instant, now: Instant)
    requires Tracks(entries, order, claims, ttl, clock) && clock <= now
    ensures Tracks(entries, order, claims, ttl, now)
  {
  }

  /** The entries without an expired one of this id. */
  function Without(entries: map<string, Instant>, id: string, ttl: nat, now: Instant): map<string, Instant> {
    if id in entries && Elapsed(now, entries[id]) >= ttl then entries - {id} else entries
  }

  /**
   * What a collection leaves: expired records go from the front of the queue, and expired entries of their ids with
   * them.
   */
  function Collected(entries: map<string, Instant>, order: seq<(string, Instant)>, ttl: nat, now: Instant)
    : (map<string, Instant>, seq<(string, Instant)>)
    decreases |order|
  {
    if order == [] || Elapsed(now, order[0].1) < ttl then (entries, order)
    else Collected(Without(entries, order[0].0, ttl, now), order[1..], ttl, now)
  }

  lemma {:induction false} CollectedStays(entries: map<string, Instant>, order: seq<(string, Instant)>,
      claims: map<string, Instant>, ttl: nat, now: Instant)
    requires Tracks(entries, order, claims, ttl, now)
    ensures var (left, rest) := Collected(entries, order, ttl, now);
            Tracks(left, rest, claims, ttl, now) && (rest != [] ==> Elapsed(now, rest[0].1) < ttl)
    decreases |order|
  {
    if order != [] && Elapsed(now, order[0].1) >= ttl {
      PopExpired(entries, order, claims, ttl, now);
      CollectedStays(Without(entries, order[0].0, ttl, now), order[1..], claims, ttl, now);
    }
  }

  /** A collection loses no claim that counts and leaves nothing expired. */
  lemma CollectedTracks(entries: map<string, Instant>, order: seq<(string, Instant)>, claims: map<string, Instant>,
      ttl: nat, clock: Instant, now: Instant)
    requires Tracks(entries, order, claims, ttl, clock) && clock <= now
    ensures var (left, rest) := Collected(entries, order, ttl, now);
            Tracks(left, rest, claims, ttl, now) && forall id :: id in left <==>
                id in claims && Elapsed(now, claims[id]) < ttl
  {
    ClockAdvances(entries, order, claims, ttl, clock, now);
    CollectedStays(entries, order, claims, ttl, now);
    var (left, rest) := Collected(entries, order, ttl, now);
    NothingExpired(left, rest, claims, ttl, now);
  }

  /** Removing an expired front of the queue, and with it an expired entry of its id, loses no claim that counts. */
  lemma PopExpired(entries: map<string, Instant>, order: seq<(string, Instant)>, claims: map<string, Instant>, ttl: nat,
      now: Instant)
    requires Tracks(entries, order, claims, ttl, now) && order != [] && Elapsed(now, order[0].1) >= ttl
    ensures Tracks(Without(entries, order[0].0, ttl, now), order[1..], claims, ttl, now)
  {
    var kept, rest := Without(entries, order[0].0, ttl, now), order[1..];
    forall id | id in kept ensures (id, kept[id]) in rest {
      var i :| 0 <= i < |order| && order[i] == (id, entries[id]);
      assert i > 0 && rest[i - 1] == order[i];
    }
  }

  /** Once the front of the queue has not expired, no entry has. */
  lemma NothingExpired(entries: map<string, Instant>, order: seq<(string, Instant)>, claims: map<string, Instant>,
      ttl: nat, now: Instant)
    requires Tracks(entries, order, claims, ttl, now) && (order != [] ==> Elapsed(now, order[0].1) < ttl)
    ensures forall id :: id in entries <==> id in claims && Elapsed(now, claims[id]) < ttl
  {
    forall id | id in entries ensures Elapsed(now, entries[id]) < ttl {
      var i :| 0 <= i < |order| && order[i] == (id, entries[id]);
    }
  }

  /** The entries decide as the claims do, later as well as now. */
  lemma SameAnswer(entries: map<string, Instant>, claims: map<string, Instant>, ttl: nat, id: string, clock: Instant,
      now: Instant)
    requires Covers(entries, claims, ttl, clock) && clock <= now
    ensures Covers(entries, claims, ttl, now) && Covers(entries[id := now], claims[id := now], ttl, now)
    ensures Grants(claims, ttl, id, now) <==> Grants(entries, ttl, id, now)
  {
  }

  lemma Requeued(entries: map<string, Instant>, order: seq<(string, Instant)>, id: string, now: Instant)
    requires Ordered(order, now) && Queued(entries, order)
    ensures Ordered(order + [(id, now)], now) && Queued(entries[id := now], order + [(id, now)])
  {
    var order' := order + [(id, now)];
    assert order'[|order|] == (id, now);
    forall other | other in entries && other != id ensures (other, entries[other]) in order' {
      assert (other, entries[other]) in order;
    }
  }

  lemma {:induction false} SubsetSize<T>(a: set<T>, b: set<T>)
    requires a <= b
    ensures |a| <= |b|
  {
    if x :| x in a {
      SubsetSize(a - {x}, b - {x});
    }
  }

  // --- Whole traces -----------------------------------------------------------------

  datatype Op = Claim(id: string, at: Instant) | Release(id: string)

  function Claims(ttl: nat, ops: seq<Op>): map<string, Instant> {
    if ops == [] then map[]
    else
      var before := Claims(ttl, ops[..|ops| - 1]);
      match ops[|ops| - 1]
      case Claim(id, at) => AfterClaim(before, ttl, id, at)
      case Release(id) => before - {id}
  }

  /** Operation `k` is a granted claim of `id`. */
  ghost predicate Granted(ttl: nat, ops: seq<Op>, k: int, id: string) {
    0 <= k < |ops| && ops[k].Claim? && ops[k].id == id && Grants(Claims(ttl, ops[..k]), ttl, id, ops[k].at)
  }

  ghost predicate Monotone(ops: seq<Op>) {
    forall i, j :: 0 <= i < j < |ops| && ops[i].Claim? && ops[j].Claim? ==> ops[i].at <= ops[j].at
  }

  ghost predicate ReleasedBetween(ops: seq<Op>, id: string, i: int, j: int) {
    exists k :: i < k < j && 0 <= k < |ops| && ops[k] == Release(id)
  }

  /** A recent granted claim that stands in the way at position `n`. */
  ghost predicate Holds(ttl: nat, ops: seq<Op>, i: int, id: string, n: nat) {
    i < n && Granted(ttl, ops, i, id) && !ReleasedBetween(ops, id, i, n)
  }

  /** The recorded claim of an id is its last granted one since the last release. */
  lemma {:induction false} ClaimsAreLastGrants(ttl: nat, ops: seq<Op>, id: string, n: nat)
    requires n <= |ops| && Monotone(ops)
    ensures var c := Claims(ttl, ops[..n]);
            (id in c ==> exists i :: Holds(ttl, ops, i, id, n) && ops[i].at == c[id]) &&
            (forall i :: Holds(ttl, ops, i, id, n) ==> id in c && ops[i].at <= c[id])
  {
    if n > 0 {
      ClaimsAreLastGrants(ttl, ops, id, n - 1);
      assert ops[..n][..n - 1] == ops[..n - 1];
      var before, c := Claims(ttl, ops[..n - 1]), Claims(ttl, ops[..n]);
      forall i | Holds(ttl, ops, i, id, n) ensures id in c && ops[i].at <= c[id] {
        HoldsBefore(ttl, ops, i, id, n);
      }
      if id in c {
        if Granted(ttl, ops, n - 1, id) {
          assert Holds(ttl, ops, n - 1, id, n);
        } else {
          var i :| Holds(ttl, ops, i, id, n - 1) && ops[i].at == before[id];
          assert Holds(ttl, ops, i, id, n);
        }
      }
    }
  }

  lemma HoldsBefore(ttl: nat, ops: seq<Op>, i: int, id: string, n: nat)
    requires 0 < n <= |ops| && Holds(ttl, ops, i, id, n)
    ensures i == n - 1 || (Holds(ttl, ops, i, id, n - 1) && ops[n - 1] != Release(id))
  {
  }

  /**
   * A claim is refused exactly when an earlier claim of the id was granted less than ttl ago and has not been
   * released since.
   */
  lemma RefusedIff(ttl: nat, ops: seq<Op>, k: nat)
    requires k < |ops| && ops[k].Claim? && Monotone(ops)
    ensures !Granted(ttl, ops, k, ops[k].id) <==>
            exists i :: Holds(ttl, ops, i, ops[k].id, k) && ops[k].at - ops[i].at < ttl
  {
    ClaimsAreLastGrants(ttl, ops, ops[k].id, k);
  }

  /** Two granted claims of one id are at least ttl apart or separated by a release. */
  lemma GrantsAreSpaced(ttl: nat, ops: seq<Op>, i: nat, j: nat, id: string)
    requires i < j && Monotone(ops) && Granted(ttl, ops, i, id) && Granted(ttl, ops, j, id)
    ensures ops[j].at - ops[i].at >= ttl || ReleasedBetween(ops, id, i, j)
  {
    RefusedIff(ttl, ops, j);
    assert ReleasedBetween(ops, id, i, j) || Holds(ttl, ops, i, id, j);
  }
}
