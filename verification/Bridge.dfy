/** The polling loop that projects fetched events, skips poisoned ones and backs off from an unhealthy service. */
module Bridge {

  /** `projected` records the events that got through; the rest of `seen` is older or was skipped. */
  datatype Progress = Progress(seen: set<string>, fails: map<string, nat>, projected: set<string>)

  /** One tick: fetched ids oldest first, the cap, and what the health check and the projection say to each id. */
  datatype Input = Input(events: seq<string>, cap: nat, healthy: string -> bool, projects: string -> bool)

  function FailsOf(fails: map<string, nat>, id: string): nat {
    if id in fails then fails[id] else 0
  }

  datatype Turn = Skipped | Projected | Stopped

  /** The progress after one event, and whether the tick goes on. */
  function Handle(max: nat, p: Progress, id: string, i: Input): (Progress, Turn) {
    if id == "" || id in p.seen then (p, Skipped)
    else if FailsOf(p.fails, id) >= max then (p.(seen := p.seen + {id}), Skipped)
    else if !i.healthy(id) then (p, Stopped)
    else if i.projects(id) then (Progress(p.seen + {id}, p.fails - {id}, p.projected + {id}), Projected)
    else (p.(fails := p.fails[id := FailsOf(p.fails, id) + 1]), Stopped)
  }

  function Count(done: nat, turn: Turn): nat {
    if turn.Projected? then done + 1 else done
  }

  /** What is left of a tick that has projected `done` events. */
  function Rest(max: nat, p: Progress, events: seq<string>, done: nat, i: Input): Progress
    decreases |events|
  {
    if events == [] || done >= i.cap then p
    else
      var (p', turn) := Handle(max, p, events[0], i);
      if turn.Stopped? then p' else Rest(max, p', events[1..], Count(done, turn), i)
  }

  /** Whether the tick ends at an event that failed or met an unhealthy service. */
  predicate Halts(max: nat, p: Progress, events: seq<string>, done: nat, i: Input)
    decreases |events|
  {
    if events == [] || done >= i.cap then false
    else
      var (p', turn) := Handle(max, p, events[0], i);
      turn.Stopped? || Halts(max, p', events[1..], Count(done, turn), i)
  }

  function AfterTick(max: nat, p: Progress, i: Input): Progress {
    Rest(max, p, i.events, 0, i)
  }

  class GithubBridge {
    const maxEventFailures: nat
    var seen: set<string>
    var eventFails: map<string, nat>
    /** Seconds to wait, and whether the service was down when last asked. */
    var backoff: real
    var down: bool
    ghost var projected: set<string>

    ghost function Contents(): Progress
      reads this
    {
      Progress(seen, eventFails, projected)
    }

    /** An id is projected at most once, since it is seen from then on. */
    ghost predicate Valid()
      reads this
    {
      projected <= seen
    }

    constructor (maxEventFailures: nat, seen: set<string>)
      ensures Valid() && Contents() == Progress(seen, map[], {}) && !down && backoff == 0.0
      ensures this.maxEventFailures == maxEventFailures
    {
      this.maxEventFailures, this.seen := maxEventFailures, seen;
      eventFails, projected, backoff, down := map[], {}, 0.0, false;
    }

    method NoteV2Down()
      modifies `backoff, `down
      ensures down && backoff == NextBackoff(old(backoff))
    {
      down := true;
      if backoff <= 0.0 {
        backoff := 2.0;
      } else {
        backoff := if backoff * 1.5 < 60.0 then backoff * 1.5 else 60.0;
      }
    }

    method NoteV2Up() returns (recovered: bool)
      modifies `backoff, `down
      ensures recovered == old(down) && !down && backoff == 0.0
    {
      recovered := down;
      down, backoff := false, 0.0;
    }

    method MarkSeen(id: string)
      modifies `seen
      ensures seen == old(seen) + {id}
    {
      seen := seen + {id};
    }

    /** One fetched event: skipped, projected, or the reason to stop. */
    method HandleEvent(id: string, i: Input) returns (turn: Turn)
      requires Valid()
      modifies this
      ensures Valid() && (Contents(), turn) == Handle(maxEventFailures, old(Contents()), id, i)
      ensures |projected| == |old(projected)| + if turn.Projected? then 1 else 0
      ensures (down, backoff) == if turn.Stopped? then (true, NextBackoff(old(backoff))) else old((down, backoff))
    {
      if id == "" || id in seen {
        return Skipped;
      }
      if FailsOf(eventFails, id) >= maxEventFailures {
        MarkSeen(id);
        return Skipped;
      }
      if !i.healthy(id) {
        NoteV2Down();
        return Stopped;
      }
      if !i.projects(id) {
        eventFails := eventFails[id := FailsOf(eventFails, id) + 1];
        NoteV2Down();
        return Stopped;
      }
      MarkSeen(id);
      projected, eventFails := projected + {id}, eventFails - {id};
      return Projected;
    }

    /** The projection pass of one healthy turn of the loop. */
    method Tick(i: Input) returns (done: nat)
      requires Valid()
      modifies this
      ensures Valid() && Contents() == AfterTick(maxEventFailures, old(Contents()), i)
      ensures done == |projected| - |old(projected)| && done <= i.cap
      ensures (down, backoff) == if Halts(maxEventFailures, old(Contents()), i.events, 0, i)
          then (true, NextBackoff(old(backoff))) else old((down, backoff))
    {
      done := 0;
      var k := 0;
      assert i.events[0..] == i.events;
      while k < |i.events| && done < i.cap
        invariant k <= |i.events| && Valid()
        invariant done == |projected| - |old(projected)| && done <= i.cap
        invariant (down, backoff) == old((down, backoff))
        invariant Halts(maxEventFailures, Contents(), i.events[k..], done, i) <==>
            Halts(maxEventFailures, old(Contents()), i.events, 0, i)
        invariant Rest(maxEventFailures, Contents(), i.events[k..], done, i) == AfterTick(maxEventFailures,
            old(Contents()), i)
      {
        RestStep(maxEventFailures, Contents(), i.events, k, done, i);
        var turn := HandleEvent(i.events[k], i);
        done := Count(done, turn);
        if turn.Stopped? {
          return;
        }
        k := k + 1;
      }
    }
  }

  /** The rest of a tick handles the next event and then what follows it. */
  lemma RestStep(max: nat, p: Progress, events: seq<string>, k: nat, done: nat, i: Input)
    requires k < |events| && done < i.cap
    ensures Rest(max, p, events[k..], done, i) ==
            var (p', turn) := Handle(max, p, events[k], i);
            if turn.Stopped? then p' else Rest(max, p', events[k + 1..], Count(done, turn), i)
    ensures Halts(max, p, events[k..], done, i) <==>
            var (p', turn) := Handle(max, p, events[k], i);
            turn.Stopped? || Halts(max, p', events[k + 1..], Count(done, turn), i)
  {
    assert events[k..][1..] == events[k + 1..];
  }

  // --- Backoff ----------------------------------------------------------------------

  function NextBackoff(b: real): real {
    if b <= 0.0 then 2.0 else if b * 1.5 < 60.0 then b * 1.5 else 60.0
  }

  function BackoffAfter(downs: nat): real {
    if downs == 0 then 0.0 else NextBackoff(BackoffAfter(downs - 1))
  }

  /** The wait grows by half with every failure, from 2 seconds, and stays at a minute from the tenth on. */
  lemma {:induction false} BackoffSaturates(downs: nat)
    requires downs > 0
    ensures 2.0 <= BackoffAfter(downs) <= 60.0
    ensures BackoffAfter(downs) == 60.0 <==> downs >= 10
  {
    if downs > 10 {
      BackoffSaturates(downs - 1);
    } else {
      assert BackoffAfter(1) == 2.0 && BackoffAfter(2) == 3.0 && BackoffAfter(3) == 4.5;
      assert BackoffAfter(4) == 6.75 && BackoffAfter(5) == 10.125 && BackoffAfter(6) == 15.1875;
      assert BackoffAfter(7) == 22.78125 && BackoffAfter(8) == 34.171875 && BackoffAfter(9) == 51.2578125;
      assert BackoffAfter(10) == 60.0;
    }
  }

  // --- Progress ---------------------------------------------------------------------

  /** No id has failed more often than allowed. */
  ghost predicate Bounded(max: nat, p: Progress) {
    forall id :: FailsOf(p.fails, id) <= max
  }

  /** Everything seen was seen before, projected, or given up after the allowed number of failures. */
  ghost predicate Accounted(max: nat, before: set<string>, p: Progress) {
    p.projected <= p.seen && forall id :: id in p.seen ==>
        id in before || id in p.projected || FailsOf(p.fails, id) == max
  }

  /** What an event may still cost: its remaining failures and the step that settles it. */
  function Cost(max: nat, p: Progress, id: string): nat {
    if id in p.seen then 0 else if FailsOf(p.fails, id) > max then 1 else max + 1 - FailsOf(p.fails, id)
  }

  function Total(max: nat, p: Progress, ids: seq<string>): nat {
    if ids == [] then 0 else Cost(max, p, ids[0]) + Total(max, p, ids[1..])
  }

  lemma HandleLowersCost(max: nat, p: Progress, id: string, i: Input, other: string)
    requires Bounded(max, p)
    ensures var p' := Handle(max, p, id, i).0;
            Bounded(max, p') && Cost(max, p', other) <= Cost(max, p, other) &&
            (other == id && id != "" && id !in p.seen && i.healthy(id) ==> Cost(max, p', id) < Cost(max, p, id))
  {
    var p' := Handle(max, p, id, i).0;
    forall x ensures FailsOf(p'.fails, x) <= max {
      assert FailsOf(p.fails, x) <= max;
    }
  }

  lemma {:induction false} TotalAtMost(max: nat, p: Progress, p': Progress, ids: seq<string>)
    requires forall id :: id in ids ==> Cost(max, p', id) <= Cost(max, p, id)
    ensures Total(max, p', ids) <= Total(max, p, ids)
    ensures (exists id :: id in ids && Cost(max, p', id) < Cost(max, p, id)) ==>
        Total(max, p', ids) < Total(max, p, ids)
  {
    if ids != [] {
      TotalAtMost(max, p, p', ids[1..]);
    }
  }

  lemma {:induction false} RestLowersCost(max: nat, p: Progress, events: seq<string>, done: nat, i: Input, id: string)
    requires Bounded(max, p)
    ensures var p' := Rest(max, p, events, done, i); Bounded(max, p') && Cost(max, p', id) <= Cost(max, p, id)
    decreases |events|
  {
    if events != [] && done < i.cap {
      var (p1, turn) := Handle(max, p, events[0], i);
      HandleLowersCost(max, p, events[0], i, id);
      if !turn.Stopped? {
        RestLowersCost(max, p1, events[1..], Count(done, turn), i, id);
      }
    }
  }

  /** The first unseen event of a tick is settled or fails once more, provided the tick may project at all. */
  lemma {:induction false} FirstUnseenPays(max: nat, p: Progress, events: seq<string>, i: Input, k: nat)
    requires Bounded(max, p) && i.cap >= 1 && (forall id :: i.healthy(id))
    requires k < |events| && events[k] != "" && events[k] !in p.seen
    requires forall j :: 0 <= j < k ==> events[j] == "" || events[j] in p.seen
    ensures Cost(max, Rest(max, p, events, 0, i), events[k]) < Cost(max, p, events[k])
  {
    var (p1, turn) := Handle(max, p, events[0], i);
    if k > 0 {
      assert p1 == p && turn == Skipped;
      FirstUnseenPays(max, p, events[1..], i, k - 1);
    } else {
      HandleLowersCost(max, p, events[0], i, events[0]);
      if !turn.Stopped? {
        RestLowersCost(max, p1, events[1..], Count(0, turn), i, events[0]);
      }
    }
  }

  /** A tick that fetches an unseen event lowers the total, as long as the service is up and the cap is at least 1. */
  lemma TickMakesProgress(max: nat, p: Progress, i: Input, ids: seq<string>)
    requires Bounded(max, p) && i.cap >= 1 && (forall id :: i.healthy(id))
    requires forall id :: id in i.events ==> id in ids
    requires exists id :: id in i.events && id != "" && id !in p.seen
    ensures Bounded(max, AfterTick(max, p, i)) && Total(max, AfterTick(max, p, i), ids) < Total(max, p, ids)
  {
    var k := FirstUnseen(p, i.events);
    FirstUnseenPays(max, p, i.events, i, k);
    forall id ensures Cost(max, AfterTick(max, p, i), id) <= Cost(max, p, id) {
      RestLowersCost(max, p, i.events, 0, i, id);
    }
    RestLowersCost(max, p, i.events, 0, i, "");
    TotalAtMost(max, p, AfterTick(max, p, i), ids);
    assert i.events[k] in ids;
  }

  function FirstUnseen(p: Progress, events: seq<string>): (k: nat)
    requires exists id :: id in events && id != "" && id !in p.seen
    ensures k < |events| && events[k] != "" && events[k] !in p.seen
    ensures forall j :: 0 <= j < k ==> events[j] == "" || events[j] in p.seen
  {
    if events[0] != "" && events[0] !in p.seen then 0
    else
      assert exists id :: id in events[1..] && id != "" && id !in p.seen by {
        var id :| id in events && id != "" && id !in p.seen;
        assert events == [events[0]] + events[1..];
        assert id in events[1..];
      }
      FirstUnseen(p, events[1..]) + 1
  }

  function Ticks(max: nat, p: Progress, inputs: seq<Input>): Progress {
    if inputs == [] then p else AfterTick(max, Ticks(max, p, inputs[..|inputs| - 1]), inputs[|inputs| - 1])
  }

  ghost predicate AllSeen(p: Progress, ids: seq<string>) {
    forall id :: id in ids ==> id in p.seen
  }

  /** Healthy ticks over a fixed stock of ids that fetch something unseen as long as there is something unseen. */
  ghost predicate Fetching(max: nat, p: Progress, inputs: seq<Input>, ids: seq<string>) {
    forall k :: 0 <= k < |inputs| ==> FetchesFrom(Ticks(max, p, inputs[..k]), inputs[k], ids)
  }

  ghost predicate FetchesFrom(p: Progress, i: Input, ids: seq<string>) {
    i.cap >= 1 && (forall id :: i.healthy(id)) && (forall id :: id in i.events ==> id in ids) &&
    (!AllSeen(p, ids) ==> exists id :: id in i.events && id != "" && id !in p.seen)
  }

  lemma {:induction false} TotalDrops(max: nat, p: Progress, inputs: seq<Input>, ids: seq<string>)
    requires Bounded(max, p) && Fetching(max, p, inputs, ids)
    ensures var p' := Ticks(max, p, inputs);
            Bounded(max, p') && (AllSeen(p', ids) || Total(max, p', ids) + |inputs| <= Total(max, p, ids))
  {
    if inputs != [] {
      var init, i := inputs[..|inputs| - 1], inputs[|inputs| - 1];
      assert forall k :: 0 <= k < |init| ==> init[..k] == inputs[..k];
      TotalDrops(max, p, init, ids);
      var before := Ticks(max, p, init);
      assert FetchesFrom(Ticks(max, p, inputs[..|inputs| - 1]), i, ids);
      if AllSeen(before, ids) {
        SeenStays(max, before, i.events, 0, i);
      } else {
        TickMakesProgress(max, before, i, ids);
      }
      RestLowersCost(max, before, i.events, 0, i, "");
    }
  }

  lemma {:induction false} SeenStays(max: nat, p: Progress, events: seq<string>, done: nat, i: Input)
    ensures p.seen <= Rest(max, p, events, done, i).seen
    decreases |events|
  {
    if events != [] && done < i.cap {
      var (p1, turn) := Handle(max, p, events[0], i);
      if !turn.Stopped? {
        SeenStays(max, p1, events[1..], Count(done, turn), i);
      }
    }
  }

  lemma {:induction false} TotalBound(max: nat, p: Progress, ids: seq<string>)
    ensures Total(max, p, ids) <= |ids| * (max + 1)
    ensures Total(max, p, ids) == 0 ==> AllSeen(p, ids)
  {
    if ids != [] {
      TotalBound(max, p, ids[1..]);
      assert ids == [ids[0]] + ids[1..];
      assert |ids| * (max + 1) == |ids[1..]| * (max + 1) + (max + 1);
    }
  }

  /**
   * However the projections turn out, n events are all seen within n times (MAX + 1) ticks, and none fails more than
   * MAX times.
   */
  lemma EverythingIsSeen(max: nat, seen: set<string>, inputs: seq<Input>, ids: seq<string>)
    requires Fetching(max, Progress(seen, map[], {}), inputs, ids)
    requires |inputs| >= |ids| * (max + 1)
    ensures var p := Ticks(max, Progress(seen, map[], {}), inputs);
            AllSeen(p, ids) && forall id :: FailsOf(p.fails, id) <= max
  {
    var p := Progress(seen, map[], {});
    TotalDrops(max, p, inputs, ids);
    TotalBound(max, p, ids);
    TotalBound(max, Ticks(max, p, inputs), ids);
  }

  lemma {:induction false} RestAccounts(max: nat, before: set<string>, p: Progress, events: seq<string>, done: nat,
      i: Input)
    requires Bounded(max, p) && Accounted(max, before, p)
    ensures Accounted(max, before, Rest(max, p, events, done, i)) && Bounded(max, Rest(max, p, events, done, i))
    decreases |events|
  {
    if events != [] && done < i.cap {
      var (p1, turn) := Handle(max, p, events[0], i);
      HandleLowersCost(max, p, events[0], i, "");
      if !turn.Stopped? {
        RestAccounts(max, before, p1, events[1..], Count(done, turn), i);
      }
    }
  }

  /** An event is skipped without being projected only after it has failed exactly MAX times. */
  lemma {:induction false} SkippedOnlyWhenPoisoned(max: nat, seen: set<string>, inputs: seq<Input>)
    ensures var p := Ticks(max, Progress(seen, map[], {}), inputs);
            Bounded(max, p) && Accounted(max, seen, p)
  {
    if inputs != [] {
      var init, i := inputs[..|inputs| - 1], inputs[|inputs| - 1];
      SkippedOnlyWhenPoisoned(max, seen, init);
      RestAccounts(max, seen, Ticks(max, Progress(seen, map[], {}), init), i.events, 0, i);
    }
  }

  // --- What one tick does to each event -----------------------------------------------

  ghost predicate Untouched(p: Progress, p': Progress, id: string) {
    FailsOf(p'.fails, id) == FailsOf(p.fails, id) && (id in p'.seen <==> id in p.seen) &&
    (id in p'.projected <==> id in p.projected)
  }

  /** A poisoned event is skipped for good, a projected one done with, a failed one counted; nothing else counts. */
  ghost predicate Treated(max: nat, p: Progress, p': Progress, i: Input, id: string) {
    id != "" && id !in p.seen &&
    if FailsOf(p.fails, id) >= max then
      id in p'.seen && (id in p'.projected <==> id in p.projected) && FailsOf(p'.fails, id) == FailsOf(p.fails, id)
    else if i.projects(id) then
      i.healthy(id) && id in p'.seen && id in p'.projected && FailsOf(p'.fails, id) == 0
    else
      i.healthy(id) && id !in p'.seen && (id in p'.projected <==> id in p.projected) &&
      FailsOf(p'.fails, id) == FailsOf(p.fails, id) + 1
  }

  /** Everything fetched before one occurrence of the event is seen in the end. */
  ghost predicate InTurn(p': Progress, events: seq<string>, id: string) {
    exists k ::
      0 <= k < |events| && events[k] == id && forall j :: 0 <= j < k ==> events[j] == "" || events[j] in p'.seen
  }

  lemma HandleTreats(max: nat, p: Progress, id: string, i: Input, other: string)
    ensures var (p', turn) := Handle(max, p, id, i);
            (Untouched(p, p', other) || (other == id && Treated(max, p, p', i, id))) &&
            (!turn.Stopped? ==> id == "" || id in p'.seen)
  {
  }

  lemma TreatedAtFirst(max: nat, p: Progress, p1: Progress, p': Progress, i: Input, id: string)
    requires Treated(max, p, p1, i, id) && Untouched(p1, p', id)
    ensures Treated(max, p, p', i, id)
  {
  }

  /**
   * In every tick an event is either left as it was or treated as its own failures and the answers about it say, and it
   * is touched only when everything older in the batch has been seen. A service that is down counts against no event.
   */
  lemma {:induction false} TickIsFair(max: nat, p: Progress, events: seq<string>, done: nat, i: Input, id: string)
    ensures var p' := Rest(max, p, events, done, i);
            Untouched(p, p', id) || (Treated(max, p, p', i, id) && InTurn(p', events, id))
    decreases |events|
  {
    if events != [] && done < i.cap {
      var (p1, turn) := Handle(max, p, events[0], i);
      HandleTreats(max, p, events[0], i, id);
      if turn.Stopped? {
        assert !Untouched(p, p1, id) ==> InTurn(p1, events, id);
      } else {
        TickIsFair(max, p1, events[1..], Count(done, turn), i, id);
        SeenStays(max, p1, events[1..], Count(done, turn), i);
        LaterInTurn(max, p, p1, Rest(max, p, events, done, i), events, i, id);
      }
    }
  }

  lemma LaterInTurn(max: nat, p: Progress, p1: Progress, p': Progress, events: seq<string>, i: Input, id: string)
    requires events != [] && p1.seen <= p'.seen && (events[0] == "" || events[0] in p1.seen)
    requires Untouched(p, p1, id) || (id == events[0] && Treated(max, p, p1, i, id))
    requires Untouched(p1, p', id) || (Treated(max, p1, p', i, id) && InTurn(p', events[1..], id))
    ensures Untouched(p, p', id) || (Treated(max, p, p', i, id) && InTurn(p', events, id))
  {
    if !Untouched(p, p1, id) {
      TreatedAtFirst(max, p, p1, p', i, id);
      assert events[0] == id;
    } else if !Untouched(p1, p', id) {
      var k :| 0 <= k < |events[1..]| && events[1..][k] == id &&
               forall j :: 0 <= j < k ==> events[1..][j] == "" || events[1..][j] in p'.seen;
      assert events[k + 1] == id;
      assert forall j :: 0 < j < k + 1 ==> events[j] == events[1..][j - 1];
    }
  }
}
