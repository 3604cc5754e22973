/** Per-tenant request limits: a sliding window in memory, a counter per minute in Redis. */
module RateLimit {
  import opened Numbers

  /** Instants count nanoseconds. */
  const SECOND: nat := 1_000_000_000

  datatype Verdict = Allowed | RateLimited(retryAfterSecs: nat)

  /** How many of the instants lie in the closed interval. */
  function Count(s: seq<nat>, lo: int, hi: int): nat {
    if s == [] then 0
    else Count(s[..|s| - 1], lo, hi) + if lo <= s[|s| - 1] <= hi then 1 else 0
  }

  ghost predicate Sorted(s: seq<nat>) {
    forall i, j :: 0 <= i < j < |s| ==> s[i] <= s[j]
  }

  ghost predicate NotAfter(s: seq<nat>, now: nat) {
    forall i :: 0 <= i < |s| ==> s[i] <= now
  }

  // --- The sliding window -----------------------------------------------------------

  ghost predicate AllowsAt(accepted: seq<Instant>, limit: nat, window: nat, now: Instant) {
    Decide(Window(accepted, window, now), limit, window, now).Allowed?
  }

  /** The hint, from the time that is left until the oldest request leaves the window. */
  function RetryAfter(left: nat): nat {
    Max(left / SECOND, 1)
  }

  /** What the queue of a tenant says about a request, once trimmed. */
  function Decide(q: seq<Instant>, limit: nat, window: nat, now: Instant): Verdict {
    if |q| < limit then Allowed
    else if q == [] then RateLimited(1)
    else RateLimited(RetryAfter(SaturatingSub(window, Elapsed(now, q[0]))))
  }

  function Recorded(accepted: seq<Instant>, v: Verdict, now: Instant): seq<Instant> {
    if v.Allowed? then accepted + [now] else accepted
  }

  function QueueOf(windows: map<string, seq<Instant>>, tenant: string): seq<Instant> {
    if tenant in windows then windows[tenant] else []
  }

  /** `q` is what is left of the accepted instants when some old ones are dropped from the front. */
  ghost predicate LeftOf(q: seq<Instant>, all: seq<Instant>, window: nat, clock: Instant) {
    q == all || (all != [] && Elapsed(clock, all[0]) > window && LeftOf(q, all[1..], window, clock))
  }

  ghost predicate Kept(q: seq<Instant>, all: seq<Instant>, window: nat, clock: Instant) {
    LeftOf(q, all, window, clock) && Sorted(all) && NotAfter(all, clock)
  }

  ghost predicate AllKept(windows: map<string, seq<Instant>>, accepted: map<string, seq<Instant>>, window: nat,
      clock: Instant) {
    forall t :: TenantKept(windows, accepted, window, clock, t)
  }

  ghost predicate TenantKept(windows: map<string, seq<Instant>>, accepted: map<string, seq<Instant>>, window: nat,
      clock: Instant, tenant: string) {
    Kept(QueueOf(windows, tenant), QueueOf(accepted, tenant), window, clock)
  }

  class InMemoryRateLimiter {
    const limitPerWindow: nat
    const window: nat
    var windows: map<string, seq<Instant>>
    /** Every instant at which a request of the tenant was let through. */
    ghost var accepted: map<string, seq<Instant>>
    ghost var clock: Instant

    ghost predicate Valid()
      reads this
    {
      AllKept(windows, accepted, window, clock)
    }

    constructor (limitPerWindow: nat, window: nat)
      ensures Valid() && accepted == map[] && clock == 0
      ensures this.limitPerWindow == limitPerWindow && this.window == window
    {
      this.limitPerWindow, this.window := limitPerWindow, window;
      windows, accepted, clock := map[], map[], 0;
    }

    /** Drops what has left the window from the front of the tenant's queue. */
    method Trim(tenant: string, now: Instant) returns (q: seq<Instant>)
      requires Valid() && clock <= now
      ensures q == Window(QueueOf(accepted, tenant), window, now)
    {
      q := QueueOf(windows, tenant);
      ghost var all := QueueOf(accepted, tenant);
      assert TenantKept(windows, accepted, window, clock, tenant);
      LeftLater(q, all, window, clock, now);
      while q != [] && Elapsed(now, q[0]) > window
        invariant LeftOf(q, all, window, now)
        decreases |q|
      {
        LeftDrops(q, all, window, now);
        q := q[1..];
      }
      DropsToWindow(q, all, window, now);
    }

    /** A request passes exactly when fewer than the limit passed in the window that ends now. */
    method Check(tenant: string, now: Instant) returns (v: Verdict)
      requires Valid() && clock <= now
      modifies this
      ensures Valid() && clock == now
      ensures v.Allowed? <==> Count(QueueOf(old(accepted), tenant), now - window, now) < limitPerWindow
      ensures accepted == old(accepted)[tenant := Recorded(QueueOf(old(accepted), tenant), v, now)]
      ensures v == Decide(Window(QueueOf(old(accepted), tenant), window, now), limitPerWindow, window, now)
    {
      var q := Trim(tenant, now);
      v := Decide(q, limitPerWindow, window, now);
      WindowIsCount(windows, accepted, window, clock, now, tenant);
      DecidedStaysKept(windows, accepted, window, clock, now, tenant, v);
      accepted := accepted[tenant := Recorded(QueueOf(accepted, tenant), v, now)];
      if v.Allowed? {
        q := q + [now];
      }
      clock, windows := now, windows[tenant := q];
    }
  }

  /** The accepted instants not yet outside the window. */
  ghost function Window(accepted: seq<Instant>, window: nat, now: Instant): seq<Instant> {
    if accepted != [] && Elapsed(now, accepted[0]) > window then Window(accepted[1..], window, now) else accepted
  }

  lemma {:induction false} LeftLater(q: seq<Instant>, all: seq<Instant>, window: nat, clock: Instant, now: Instant)
    requires LeftOf(q, all, window, clock) && clock <= now
    ensures LeftOf(q, all, window, now)
  {
    if q != all {
      LeftLater(q, all[1..], window, clock, now);
    }
  }

  lemma {:induction false} LeftDrops(q: seq<Instant>, all: seq<Instant>, window: nat, now: Instant)
    requires LeftOf(q, all, window, now) && q != [] && Elapsed(now, q[0]) > window
    ensures LeftOf(q[1..], all, window, now)
  {
    if q != all {
      LeftDrops(q, all[1..], window, now);
    } else {
      assert LeftOf(q[1..], all[1..], window, now);
    }
  }

  lemma {:induction false} LeftGrows(q: seq<Instant>, all: seq<Instant>, window: nat, now: Instant)
    requires LeftOf(q, all, window, now)
    ensures LeftOf(q + [now], all + [now], window, now)
  {
    if q != all {
      LeftGrows(q, all[1..], window, now);
      assert (all + [now])[1..] == all[1..] + [now];
    }
  }

  lemma {:induction false} WindowIsLeft(all: seq<Instant>, window: nat, now: Instant)
    ensures LeftOf(Window(all, window, now), all, window, now)
  {
    if all != [] && Elapsed(now, all[0]) > window {
      WindowIsLeft(all[1..], window, now);
    }
  }

  lemma {:induction false} DropsToWindow(q: seq<Instant>, all: seq<Instant>, window: nat, now: Instant)
    requires LeftOf(q, all, window, now) && (q != [] ==> Elapsed(now, q[0]) <= window)
    ensures q == Window(all, window, now)
  {
    if q != all {
      DropsToWindow(q, all[1..], window, now);
    }
  }

  lemma {:induction false} WindowCounts(all: seq<Instant>, window: nat, now: Instant)
    requires Sorted(all) && NotAfter(all, now)
    ensures |Window(all, window, now)| == Count(all, now - window, now)
  {
    if all != [] && Elapsed(now, all[0]) > window {
      CountFront(all, now - window, now);
      WindowCounts(all[1..], window, now);
    } else {
      CountAll(all, now - window, now);
    }
  }

  lemma {:induction false} CountFront(s: seq<nat>, lo: int, hi: int)
    requires s != []
    ensures Count(s, lo, hi) == (if lo <= s[0] <= hi then 1 else 0) + Count(s[1..], lo, hi)
  {
    if |s| > 1 {
      CountFront(s[..|s| - 1], lo, hi);
      assert s[1..][..|s| - 2] == s[..|s| - 1][1..];
    }
  }

  lemma {:induction false} CountAll(s: seq<nat>, lo: int, hi: int)
    requires forall i :: 0 <= i < |s| ==> lo <= s[i] <= hi
    ensures Count(s, lo, hi) == |s|
  {
    if s != [] {
      CountAll(s[..|s| - 1], lo, hi);
    }
  }

  /** The trimmed queue holds as many instants as were let through in the window. */
  lemma WindowIsCount(windows: map<string, seq<Instant>>, accepted: map<string, seq<Instant>>, window: nat,
      clock: Instant, now: Instant, tenant: string)
    requires AllKept(windows, accepted, window, clock) && clock <= now
    ensures |Window(QueueOf(accepted, tenant), window, now)| == Count(QueueOf(accepted, tenant), now - window, now)
  {
    var all := QueueOf(accepted, tenant);
    assert TenantKept(windows, accepted, window, clock, tenant);
    WindowCounts(all, window, now);
  }

  /** Whatever the verdict, the queues stay what is left of the accepted instants. */
  lemma DecidedStaysKept(windows: map<string, seq<Instant>>, accepted: map<string, seq<Instant>>, window: nat,
      clock: Instant, now: Instant, tenant: string, v: Verdict)
    requires AllKept(windows, accepted, window, clock) && clock <= now
    ensures var all := QueueOf(accepted, tenant);
            AllKept(windows[tenant := Recorded(Window(all, window, now), v, now)],
                accepted[tenant := Recorded(all, v, now)], window, now)
  {
    var all := QueueOf(accepted, tenant);
    assert TenantKept(windows, accepted, window, clock, tenant);
    var q := Window(all, window, now);
    WindowIsLeft(all, window, now);
    LeftGrows(q, all, window, now);
    KeptStaysKept(windows, accepted, window, clock, now, tenant, Recorded(q, v, now), Recorded(all, v, now));
  }

  lemma KeptStaysKept(windows: map<string, seq<Instant>>, accepted: map<string, seq<Instant>>, window: nat,
      clock: Instant, now: Instant, tenant: string, q: seq<Instant>, all: seq<Instant>)
    requires AllKept(windows, accepted, window, clock) && clock <= now && Kept(q, all, window, now)
    ensures AllKept(windows[tenant := q], accepted[tenant := all], window, now)
  {
    var windows', accepted' := windows[tenant := q], accepted[tenant := all];
    forall t ensures TenantKept(windows', accepted', window, now, t) {
      if t == tenant {
        SameQueues(windows', accepted', window, now, t, q, all);
      } else {
        OtherStaysKept(windows, accepted, window, clock, now, windows', accepted', t);
      }
    }
  }

  lemma OtherStaysKept(windows: map<string, seq<Instant>>, accepted: map<string, seq<Instant>>, window: nat,
      clock: Instant, now: Instant, windows': map<string, seq<Instant>>, accepted': map<string, seq<Instant>>,
      t: string)
    requires AllKept(windows, accepted, window, clock) && clock <= now
    requires QueueOf(windows', t) == QueueOf(windows, t) && QueueOf(accepted', t) == QueueOf(accepted, t)
    ensures TenantKept(windows', accepted', window, now, t)
  {
    assert TenantKept(windows, accepted, window, clock, t);
    LeftLater(QueueOf(windows, t), QueueOf(accepted, t), window, clock, now);
  }

  lemma SameQueues(windows: map<string, seq<Instant>>, accepted: map<string, seq<Instant>>, window: nat,
      now: Instant, t: string, q: seq<Instant>, all: seq<Instant>)
    requires QueueOf(windows, t) == q && QueueOf(accepted, t) == all && Kept(q, all, window, now)
    ensures TenantKept(windows, accepted, window, now, t)
  {
  }

  lemma {:induction false} CountNone(s: seq<nat>, lo: int, hi: int)
    requires forall i :: 0 <= i < |s| ==> !(lo <= s[i] <= hi)
    ensures Count(s, lo, hi) == 0
  {
    if s != [] {
      CountNone(s[..|s| - 1], lo, hi);
    }
  }

  // --- Whole traces of one tenant ---------------------------------------------------

  function Admit(limit: nat, window: nat, before: seq<Instant>, now: Instant): seq<Instant> {
    if Count(before, now - window, now) < limit then before + [now] else before
  }

  /** The accepted instants among the requests: each passes when the window before it is not full. */
  function Accepts(limit: nat, window: nat, requests: seq<Instant>): seq<Instant> {
    if requests == [] then []
    else Admit(limit, window, Accepts(limit, window, requests[..|requests| - 1]), requests[|requests| - 1])
  }

  lemma AdmitSorted(limit: nat, window: nat, before: seq<Instant>, now: Instant)
    requires Sorted(before) && NotAfter(before, now)
    ensures Sorted(Admit(limit, window, before, now)) && NotAfter(Admit(limit, window, before, now), now)
  {
  }

  lemma {:induction false} AcceptsSorted(limit: nat, window: nat, requests: seq<Instant>)
    requires Sorted(requests)
    ensures Sorted(Accepts(limit, window, requests))
    ensures forall now :: NotAfter(requests, now) ==> NotAfter(Accepts(limit, window, requests), now)
  {
    if requests != [] {
      var init, now := requests[..|requests| - 1], requests[|requests| - 1];
      AcceptsSorted(limit, window, init);
      assert NotAfter(init, now);
      AdmitSorted(limit, window, Accepts(limit, window, init), now);
    }
  }

  lemma {:induction false} CountMonotone(s: seq<nat>, lo: int, hi: int, lo': int, hi': int)
    requires forall i :: 0 <= i < |s| && lo <= s[i] <= hi ==> lo' <= s[i] <= hi'
    ensures Count(s, lo, hi) <= Count(s, lo', hi')
  {
    if s != [] {
      CountMonotone(s[..|s| - 1], lo, hi, lo', hi');
    }
  }

  lemma AdmitWithinLimit(limit: nat, window: nat, before: seq<Instant>, now: Instant, from: int)
    requires NotAfter(before, now) && Count(before, from, from + window) <= limit
    ensures Count(Admit(limit, window, before, now), from, from + window) <= limit
  {
    assert (before + [now])[..|before|] == before;
    if from <= now <= from + window {
      CountMonotone(before, from, from + window, now - window, now);
    }
  }

  /** At most `limit` requests pass in every closed interval of window length, wherever it starts. */
  lemma {:induction false} NeverOverLimit(limit: nat, window: nat, requests: seq<Instant>, from: int)
    requires Sorted(requests)
    ensures Count(Accepts(limit, window, requests), from, from + window) <= limit
  {
    if requests != [] {
      var init, now := requests[..|requests| - 1], requests[|requests| - 1];
      NeverOverLimit(limit, window, init, from);
      AcceptsSorted(limit, window, init);
      assert NotAfter(init, now);
      AdmitWithinLimit(limit, window, Accepts(limit, window, init), now, from);
    }
  }

  /** A request is turned away exactly when the window that ends with it already holds the limit. */
  lemma RejectedIffFull(limit: nat, window: nat, requests: seq<Instant>, now: Instant)
    requires Sorted(requests + [now])
    ensures var before := Accepts(limit, window, requests);
            Accepts(limit, window, requests + [now]) == before <==> Count(before, now - window, now) == limit
  {
    var before := Accepts(limit, window, requests);
    OneMoreAdmitted(limit, window, requests, now);
    SortedPrefix(requests, now);
    NeverOverLimit(limit, window, requests, now - window);
    AdmitIff(limit, window, before, now);
  }

  lemma AdmitIff(limit: nat, window: nat, before: seq<Instant>, now: Instant)
    ensures Admit(limit, window, before, now) == before <==> Count(before, now - window, now) >= limit
  {
    assert |before + [now]| != |before|;
  }

  lemma OneMoreAdmitted(limit: nat, window: nat, requests: seq<Instant>, now: Instant)
    ensures Accepts(limit, window, requests + [now]) == Admit(limit, window, Accepts(limit, window, requests), now)
  {
    assert (requests + [now])[..|requests|] == requests;
  }

  lemma SortedPrefix(s: seq<nat>, x: nat)
    requires Sorted(s + [x])
    ensures Sorted(s) && NotAfter(s, x)
  {
    forall i, j | 0 <= i < j < |s| ensures s[i] <= s[j] {
      assert (s + [x])[i] <= (s + [x])[j];
    }
    forall i | 0 <= i < |s| ensures s[i] <= x {
      assert (s + [x])[i] <= (s + [x])[|s|];
    }
  }

  lemma RetryAfterSufficesIff(left: nat)
    ensures RetryAfter(left) * SECOND > left <==> left < SECOND
  {
    var secs := left / SECOND;
    assert left == secs * SECOND + left % SECOND;
  }

  /** Room appears in a full window exactly when the oldest request has left it. */
  lemma RoomIff(accepted: seq<Instant>, window: nat, now: Instant, later: Instant)
    requires now <= later && Window(accepted, window, now) != []
    ensures var q := Window(accepted, window, now);
            |Window(accepted, window, later)| < |q| <==> Elapsed(later, q[0]) > window
  {
    var q := Window(accepted, window, now);
    WindowTwice(accepted, window, now, later);
    WindowIsSuffix(q, window, later);
    if Elapsed(later, q[0]) > window {
      WindowIsSuffix(q[1..], window, later);
    }
  }

  /**
   * A client that waits the hinted seconds and is alone gets through exactly when less than a second was missing;
   * the hint is rounded down, and rounding down a longer wait always comes too early.
   */
  lemma HintSufficesIff(limit: nat, window: nat, accepted: seq<Instant>, now: Instant)
    requires NotAfter(accepted, now)
    requires limit > 0 && |Window(accepted, window, now)| == limit
    ensures var q := Window(accepted, window, now);
            var v := Decide(q, limit, window, now);
            v.RateLimited? &&
            (AllowsAt(accepted, limit, window, now + v.retryAfterSecs * SECOND) <==> window - (now - q[0]) < SECOND)
  {
    var q := Window(accepted, window, now);
    WindowIsSuffix(accepted, window, now);
    var left := window - (now - q[0]);
    RetryAfterSufficesIff(left);
    RoomIff(accepted, window, now, now + RetryAfter(left) * SECOND);
  }

  lemma {:induction false} WindowIsSuffix(s: seq<Instant>, window: nat, now: Instant)
    ensures var q := Window(s, window, now);
            |q| <= |s| && q == s[|s| - |q|..] && (q != [] ==> Elapsed(now, q[0]) <= window)
  {
    if s != [] && Elapsed(now, s[0]) > window {
      WindowIsSuffix(s[1..], window, now);
    }
  }

  lemma {:induction false} WindowTwice(s: seq<Instant>, window: nat, now: Instant, later: Instant)
    requires now <= later
    ensures Window(s, window, later) == Window(Window(s, window, now), window, later)
  {
    if s != [] && Elapsed(now, s[0]) > window {
      WindowTwice(s[1..], window, now, later);
    }
  }

  // --- One counter per minute -------------------------------------------------------

  /** A Redis key: the hits so far and the second at which the key expires. */
  datatype Slot = Slot(hits: nat, expires: nat)

  datatype Key = Key(tenant: string, minute: nat)

  type Slots = map<Key, Slot>

  /** A request at a second of the wall clock. */
  datatype Request = Request(tenant: string, at: nat)

  function Live(slots: Slots, now: nat): Slots {
    map k | k in slots && now < slots[k].expires :: slots[k]
  }

  /** INCR, and EXPIRE when the key is new. */
  function Hit(slots: Slots, tenant: string, now: nat): Slots {
    var live, key := Live(slots, now), Key(tenant, now / 60);
    var count := if key in live then live[key].hits + 1 else 1;
    live[key := Slot(count, if count == 1 then now + 60 else live[key].expires)]
  }

  class RedisRateLimiter {
    const limitPerMinute: nat
    var slots: Slots

    constructor (limitPerMinute: nat)
      ensures this.limitPerMinute == limitPerMinute && slots == map[]
    {
      this.limitPerMinute, slots := limitPerMinute, map[];
    }

    method Check(tenant: string, now: nat) returns (v: Verdict)
      modifies this
      ensures slots == Hit(old(slots), tenant, now)
      ensures v == if slots[Key(tenant, now / 60)].hits <= limitPerMinute then Allowed else RateLimited(60 - now % 60)
    {
      var key := Key(tenant, now / 60);
      slots := Live(slots, now);
      var count := if key in slots then slots[key].hits + 1 else 1;
      slots := slots[key := Slot(count, if key in slots then slots[key].expires else 0)];
      if count == 1 {
        slots := slots[key := slots[key].(expires := now + 60)];
      }
      if count > limitPerMinute {
        return RateLimited(60 - now % 60);
      }
      return Allowed;
    }
  }

  function SlotsAfter(requests: seq<Request>): Slots {
    if requests == [] then map[]
    else
      Hit(SlotsAfter(requests[..|requests| - 1]), requests[|requests| - 1].tenant, requests[|requests| - 1].at)
  }

  function Passes(limit: nat, slots: Slots, r: Request): bool {
    Hit(slots, r.tenant, r.at)[Key(r.tenant, r.at / 60)].hits <= limit
  }

  /** How many requests fall under the key, and when the first of them came. */
  function SoFar(requests: seq<Request>, key: Key): nat {
    if requests == [] then 0
    else SoFar(requests[..|requests| - 1], key) + if KeyOf(requests[|requests| - 1]) == key then 1 else 0
  }

  function FirstAt(requests: seq<Request>, key: Key): nat {
    if requests == [] then 0
    else if SoFar(requests[..|requests| - 1], key) > 0 then FirstAt(requests[..|requests| - 1], key)
    else requests[|requests| - 1].at
  }

  function KeyOf(r: Request): Key {
    Key(r.tenant, r.at / 60)
  }

  /** What Redis still knows of a key at `now`: all its requests, until a minute after the first. */
  ghost predicate Known(requests: seq<Request>, key: Key, now: nat) {
    var live, n := Live(SlotsAfter(requests), now), SoFar(requests, key);
    (key in live <==> n > 0) &&
    (n > 0 ==> live[key] == Slot(n, FirstAt(requests, key) + 60) && FirstAt(requests, key) / 60 == key.minute)
  }

  lemma OwnHit(requests: seq<Request>, now: nat)
    requires requests != [] && requests[|requests| - 1].at <= now && requests[|requests| - 1].at / 60 == now / 60
    requires var r := requests[|requests| - 1]; Known(requests[..|requests| - 1], KeyOf(r), r.at)
    ensures Known(requests, KeyOf(requests[|requests| - 1]), now)
  {
  }

  lemma OtherHit(requests: seq<Request>, key: Key, now: nat)
    requires requests != [] && requests[|requests| - 1].at <= now && KeyOf(requests[|requests| - 1]) != key
    requires Known(requests[..|requests| - 1], key, now)
    ensures Known(requests, key, now)
  {
  }

  lemma {:induction false} MinuteIsKnown(requests: seq<Request>, key: Key, now: nat)
    requires MonotoneSeconds(requests) && key.minute == now / 60
    requires requests != [] ==> requests[|requests| - 1].at <= now
    ensures Known(requests, key, now)
  {
    if requests != [] {
      var init, r := requests[..|requests| - 1], requests[|requests| - 1];
      if KeyOf(r) == key {
        MinuteIsKnown(init, key, r.at);
        OwnHit(requests, now);
      } else {
        MinuteIsKnown(init, key, now);
        OtherHit(requests, key, now);
      }
    }
  }

  /** A request passes exactly when fewer than the limit of its tenant came before it in the same minute. */
  lemma MinuteRule(limit: nat, requests: seq<Request>, r: Request)
    requires MonotoneSeconds(requests) && (requests != [] ==> requests[|requests| - 1].at <= r.at)
    ensures Passes(limit, SlotsAfter(requests), r) <==> SoFar(requests, KeyOf(r)) < limit
    ensures Hit(SlotsAfter(requests), r.tenant, r.at)[KeyOf(r)].expires == FirstAt(requests + [r], KeyOf(r)) + 60
  {
    MinuteIsKnown(requests, KeyOf(r), r.at);
    assert (requests + [r])[..|requests|] == requests;
  }

  /** The seconds at which requests of `tenant` passed. */
  function MinuteAccepts(limit: nat, requests: seq<Request>, tenant: string): seq<nat> {
    if requests == [] then []
    else
      var init, r := requests[..|requests| - 1], requests[|requests| - 1];
      var before := MinuteAccepts(limit, init, tenant);
      if r.tenant == tenant && Passes(limit, SlotsAfter(init), r) then before + [r.at] else before
  }

  ghost predicate MonotoneSeconds(requests: seq<Request>) {
    forall i, j :: 0 <= i < j < |requests| ==> requests[i].at <= requests[j].at
  }

  /** Accepted requests of one minute. */
  ghost function InMinute(accepted: seq<nat>, minute: nat): nat {
    Count(accepted, 60 * minute, 60 * minute + 59)
  }

  /** The counter of the current minute is alive and has seen at least the requests that passed. */
  ghost predicate Counted(limit: nat, slots: Slots, accepted: seq<nat>, tenant: string, now: nat) {
    NotAfter(accepted, now) && (forall m: nat :: InMinute(accepted, m) <= limit) &&
    var key := Key(tenant, now / 60);
    (InMinute(accepted, now / 60) > 0 ==> key in slots && InMinute(accepted, now / 60) <= slots[key].hits) &&
    (key in slots ==> slots[key].expires > 60 * (now / 60) + 59)
  }

  /** Keys of later minutes than the clock's do not exist yet. */
  ghost predicate NoneAhead(slots: Slots, now: nat) {
    forall k :: k in slots ==> k.minute <= now / 60
  }

  lemma TickKeepsCounted(limit: nat, slots: Slots, accepted: seq<nat>, tenant: string, now: nat, later: nat)
    requires Counted(limit, slots, accepted, tenant, now) && NoneAhead(slots, now) && now <= later
    ensures Counted(limit, slots, accepted, tenant, later) && NoneAhead(slots, later)
  {
    if now / 60 < later / 60 {
      CountNone(accepted, 60 * (later / 60), 60 * (later / 60) + 59);
      assert Key(tenant, later / 60) !in slots;
    }
  }

  lemma HitKeepsCounted(limit: nat, slots: Slots, accepted: seq<nat>, tenant: string, t: string, now: nat)
    requires Counted(limit, slots, accepted, tenant, now) && NoneAhead(slots, now)
    ensures var slots' := Hit(slots, t, now);
            var passes := t == tenant && Passes(limit, slots, Request(t, now));
            NoneAhead(slots', now) && Counted(limit, slots', if passes then accepted + [now] else accepted, tenant, now)
  {
    var slots' := Hit(slots, t, now);
    var key := Key(tenant, now / 60);
    assert key in slots ==> key in Live(slots, now);
    if t == tenant && slots'[key].hits <= limit {
      var accepted' := accepted + [now];
      assert accepted'[..|accepted|] == accepted;
      forall m: nat ensures InMinute(accepted', m) == InMinute(accepted, m) + if m == now / 60 then 1 else 0 {
      }
    }
  }

  lemma {:induction false} RunCounted(limit: nat, requests: seq<Request>, tenant: string)
    requires MonotoneSeconds(requests)
    ensures var now := if requests == [] then 0 else requests[|requests| - 1].at;
            Counted(limit, SlotsAfter(requests), MinuteAccepts(limit, requests, tenant), tenant, now) &&
            NoneAhead(SlotsAfter(requests), now)
  {
    if requests == [] {
      assert forall m: nat :: InMinute([], m) == 0;
    } else {
      var init := requests[..|requests| - 1];
      var Request(t, now) := requests[|requests| - 1];
      RunCounted(limit, init, tenant);
      var slots, before := SlotsAfter(init), MinuteAccepts(limit, init, tenant);
      TickKeepsCounted(limit, slots, before, tenant, if init == [] then 0 else init[|init| - 1].at, now);
      HitKeepsCounted(limit, slots, before, tenant, t, now);
    }
  }

  lemma {:induction false} CountSplit(s: seq<nat>, lo: int, mid: int, hi: int)
    requires lo <= mid <= hi
    ensures Count(s, lo, hi) == Count(s, lo, mid) + Count(s, mid + 1, hi)
  {
    if s != [] {
      CountSplit(s[..|s| - 1], lo, mid, hi);
    }
  }

  /** The fixed minutes let at most twice the limit through in any 60 seconds, both ends included. */
  lemma AtMostTwiceTheLimit(limit: nat, requests: seq<Request>, tenant: string, from: nat)
    requires MonotoneSeconds(requests)
    ensures Count(MinuteAccepts(limit, requests, tenant), from, from + 60) <= 2 * limit
  {
    var accepted, m := MinuteAccepts(limit, requests, tenant), from / 60;
    RunCounted(limit, requests, tenant);
    CountMonotone(accepted, from, from + 60, 60 * m, 60 * m + 119);
    CountSplit(accepted, 60 * m, 60 * m + 59, 60 * m + 119);
    assert InMinute(accepted, m) <= limit && InMinute(accepted, m + 1) <= limit;
  }

  /** `n` requests, or acceptances, in a row. */
  function Times<T>(n: nat, x: T): seq<T> {
    if n == 0 then [] else Times(n - 1, x) + [x]
  }

  /** The counter of the minute of `now` stands at `k`. */
  ghost predicate StandsAt(slots: Slots, tenant: string, now: nat, k: nat) {
    if k == 0 then Key(tenant, now / 60) !in slots
    else Key(tenant, now / 60) in slots && slots[Key(tenant, now / 60)] == Slot(k, now + 60)
  }

  lemma HitCounts(slots: Slots, tenant: string, now: nat, k: nat)
    requires StandsAt(slots, tenant, now, k)
    ensures StandsAt(Hit(slots, tenant, now), tenant, now, k + 1)
  {
  }

  lemma OneMoreRequest(limit: nat, requests: seq<Request>, r: Request)
    ensures SlotsAfter(requests + [r]) == Hit(SlotsAfter(requests), r.tenant, r.at)
    ensures MinuteAccepts(limit, requests + [r], r.tenant)
         == MinuteAccepts(limit, requests, r.tenant) + if Passes(limit, SlotsAfter(requests), r) then [r.at] else []
  {
    assert (requests + [r])[..|requests|] == requests;
  }

  /** After `before` and `k` requests like `r`, all `k` have passed and the counter stands at `k`. */
  ghost predicate AllPassed(limit: nat, before: seq<Request>, r: Request, k: nat, all: seq<Request>) {
    MinuteAccepts(limit, all, r.tenant) == MinuteAccepts(limit, before, r.tenant) + Times<nat>(k, r.at) &&
    StandsAt(SlotsAfter(all), r.tenant, r.at, k)
  }

  lemma NothingPassed(limit: nat, before: seq<Request>, r: Request)
    requires StandsAt(SlotsAfter(before), r.tenant, r.at, 0)
    ensures AllPassed(limit, before, r, 0, before)
  {
  }

  lemma OneMorePasses(limit: nat, before: seq<Request>, r: Request, k: nat, all: seq<Request>)
    requires k < limit && AllPassed(limit, before, r, k, all)
    ensures AllPassed(limit, before, r, k + 1, all + [r])
  {
    HitCounts(SlotsAfter(all), r.tenant, r.at, k);
    OneMoreRequest(limit, all, r);
  }

  lemma OneMoreTime<T>(before: seq<T>, k: nat, x: T)
    requires k > 0
    ensures before + Times(k, x) == before + Times(k - 1, x) + [x]
  {
  }

  lemma {:induction false} BurstPasses(limit: nat, before: seq<Request>, r: Request, k: nat)
    requires k <= limit && AllPassed(limit, before, r, 0, before)
    ensures AllPassed(limit, before, r, k, before + Times(k, r))
  {
    if k == 0 {
      assert before + Times(0, r) == before;
    } else {
      BurstPasses(limit, before, r, k - 1);
      OneMorePasses(limit, before, r, k - 1, before + Times(k - 1, r));
      OneMoreTime(before, k, r);
    }
  }

  lemma {:induction false} TimesAre<T>(n: nat, x: T)
    ensures |Times(n, x)| == n && forall i :: 0 <= i < n ==> Times(n, x)[i] == x
  {
    if n > 0 {
      TimesAre(n - 1, x);
    }
  }

  ghost function Burst(limit: nat, tenant: string): seq<Request> {
    Times(limit, Request(tenant, 59)) + Times(limit, Request(tenant, 60))
  }

  /** Twice the limit can pass within two seconds, across the turn of a minute. */
  lemma TwiceTheLimitIsReached(limit: nat, tenant: string)
    ensures MonotoneSeconds(Burst(limit, tenant))
    ensures Count(MinuteAccepts(limit, Burst(limit, tenant), tenant), 59, 60) == 2 * limit
  {
    var a, b := Request(tenant, 59), Request(tenant, 60);
    TimesAre(limit, a);
    TimesAre(limit, b);
    FirstBurst(limit, tenant);
    NothingPassed(limit, Times(limit, a), b);
    BurstPasses(limit, Times(limit, a), b, limit);
    CountBurst(limit);
  }

  lemma FirstBurst(limit: nat, tenant: string)
    ensures var requests := Times(limit, Request(tenant, 59));
            MinuteAccepts(limit, requests, tenant) == Times<nat>(limit, 59) &&
                StandsAt(SlotsAfter(requests), tenant, 60, 0)
  {
    var r := Request(tenant, 59);
    NothingPassed(limit, [], r);
    BurstPasses(limit, [], r, limit);
    assert [] + Times(limit, r) == Times(limit, r) && [] + Times<nat>(limit, 59) == Times<nat>(limit, 59);
    TimesAre(limit, r);
    RunCounted(limit, Times(limit, r), tenant);
  }

  lemma CountBurst(limit: nat)
    ensures Count(Times<nat>(limit, 59) + Times<nat>(limit, 60), 59, 60) == 2 * limit
  {
    var all := Times<nat>(limit, 59) + Times<nat>(limit, 60);
    TimesAre<nat>(limit, 59);
    TimesAre<nat>(limit, 60);
    CountAll(all, 59, 60);
  }
}
