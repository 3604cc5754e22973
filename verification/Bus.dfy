/** One topic of the in-process bus: a bounded durable log, group cursors and a broadcast channel. */
module Bus {
  import opened GraphModel
  import opened Numbers
  import opened Sorting

  datatype BusMessage = BusMessage(topic: string, partitionKey: string, payload: string)

  /** What a broadcast receiver hands over without waiting. */
  datatype Live = Got(message: BusMessage) | Lagged | Nothing

  type Log = seq<(nat, BusMessage)>

  /** How many of `n` published messages are no longer in a log of capacity `cap`. */
  function Evicted(n: nat, cap: nat): nat {
    n - Min(n, cap)
  }

  /** The sequence number the next read of a group delivers. */
  function NextSeq(n: nat, cap: nat, cursor: nat): Option<nat> {
    if cursor >= n || cap == 0 then None
    else Some(if cursor < Evicted(n, cap) then Evicted(n, cap) + 1 else cursor + 1)
  }

  /** Where a receiver of the live channel stands after skipping what the channel no longer holds. */
  function Caught(n: nat, cap: nat, received: nat): (r: nat)
    requires received <= n
    ensures received <= r <= n
  {
    if n - received > cap then n - Min(n, cap) else received
  }

  /** What a waiting reader gets: a message by its number, a live copy by its place in the channel, or nothing yet. */
  datatype Found = FromLog(number: nat) | FromChannel(place: nat) | Waits

  /** A waiting reader with `n` messages in the log so far and `m` in the channel; then its cursor and position. */
  function Heard(n: nat, durableCap: nat, m: nat, channelCap: nat, cursor: nat, received: nat): (r: (Found, nat, nat))
    requires received <= m
    ensures r.0.FromChannel? ==> r.0.place < m
  {
    match NextSeq(n, durableCap, cursor)
    case Some(k) => (FromLog(k), k, received)
    case None =>
      var at := Caught(m, channelCap, received);
      if at < m then (FromChannel(at), cursor, at + 1) else (Waits, cursor, at)
  }

  /** The receiver position after one look at the live channel. */
  function Looked(n: nat, cap: nat, received: nat): nat
    requires received <= n
  {
    if n - received > cap then Caught(n, cap, received) else if received < n then received + 1 else received
  }

  /** The log holds the last messages sent, numbered contiguously from 1. */
  ghost predicate IsWindow(log: Log, sent: seq<BusMessage>, cap: nat) {
    |log| == Min(|sent|, cap) &&
    forall i :: 0 <= i < |log| ==> log[i] == (|sent| - |log| + i + 1, sent[|sent| - |log| + i])
  }

  class Cursor {
    var value: nat

    constructor ()
      ensures value == 0
    {
      value := 0;
    }
  }

  class TopicState {
    const durableCap: nat
    const channelCap: nat
    var log: Log
    var head: nat
    /** Everything ever handed to the broadcast channel. */
    var sent: seq<BusMessage>
    var cursors: map<string, Cursor>

    ghost predicate Valid()
      reads this, cursors.Values
    {
      head == |sent| && IsWindow(log, sent, durableCap) &&
      (forall g :: g in cursors ==> cursors[g].value <= head) &&
      (forall g, h :: g in cursors && h in cursors && g != h ==> cursors[g] != cursors[h])
    }

    constructor (durableCap: nat, channelCap: nat)
      ensures Valid() && sent == [] && cursors == map[]
      ensures this.durableCap == durableCap && this.channelCap == channelCap
    {
      this.durableCap, this.channelCap := durableCap, channelCap;
      log, head, sent, cursors := [], 0, [], map[];
    }

    /** Durable append first, then the live channel. */
    method Publish(message: BusMessage)
      requires Valid()
      modifies `log, `head, `sent
      ensures Valid() && sent == old(sent) + [message]
    {
      head := head + 1;
      log := log + [(head, message)];
      while |log| > durableCap
        invariant sent == old(sent) && cursors == old(cursors)
        invariant head == |old(sent)| + 1 && |log| >= Min(head, durableCap)
        invariant |log| <= Min(|old(sent)|, durableCap) + 1
        invariant var all := old(sent) + [message];
                  forall i :: 0 <= i < |log| ==> log[i] == (head - |log| + i + 1, all[head - |log| + i])
      {
        log := log[1..];
      }
      sent := sent + [message];
    }

    /** All subscriptions of a group share one cursor; other groups keep theirs. */
    method Subscribe(group: string) returns (s: BusSubscription)
      requires Valid()
      modifies `cursors
      ensures Valid() && group in cursors &&
          (forall g :: g in old(cursors) ==> g in cursors && cursors[g] == old(cursors[g]))
      ensures cursors.Keys == old(cursors.Keys) + {group} && (group !in old(cursors) ==> cursors[group].value == 0)
      ensures fresh(s) && s.topic == this && s.cursor == cursors[group] && s.received == |sent| && s.Valid()
    {
      if group !in cursors {
        var c := new Cursor();
        cursors := cursors[group := c];
      }
      s := new BusSubscription(this, cursors[group], |sent|);
    }

    method Lag(group: string) returns (n: nat)
      requires Valid()
      ensures n == |sent| - if group in cursors then cursors[group].value else 0
    {
      var cursor := if group in cursors then cursors[group].value else 0;
      n := SaturatingSub(head, cursor);
    }
  }

  class BusSubscription {
    const topic: TopicState
    const cursor: Cursor
    /** Position of the broadcast receiver. */
    var received: nat

    ghost predicate Valid()
      reads this, topic, cursor
    {
      received <= |topic.sent| && cursor.value <= |topic.sent| && IsWindow(topic.log, topic.sent, topic.durableCap)
    }

    constructor (topic: TopicState, cursor: Cursor, received: nat)
      ensures this.topic == topic && this.cursor == cursor && this.received == received
    {
      this.topic, this.cursor, this.received := topic, cursor, received;
    }

    /** What a read of the log delivers, and the cursor it leaves. */
    ghost function Delivery(): (Option<BusMessage>, nat)
      requires Valid()
      reads this, topic, cursor
    {
      match NextSeq(|topic.sent|, topic.durableCap, cursor.value)
      case Some(k) => (Some(topic.sent[k - 1]), k)
      case None => (None, cursor.value)
    }

    method NextFromLog() returns (m: Option<BusMessage>)
      requires Valid()
      modifies cursor
      ensures Valid() && (m, cursor.value) == old(Delivery())
    {
      var at, i := cursor.value, 0;
      while i < |topic.log|
        invariant i <= |topic.log|
        invariant forall j :: 0 <= j < i ==> topic.log[j].0 <= at
      {
        var (number, message) := topic.log[i];
        assert i > 0 ==> topic.log[i - 1].0 <= at;
        if number > at {
          cursor.value := number;
          return Some(message);
        }
        i := i + 1;
      }
      m := None;
      assert |topic.log| > 0 ==> topic.log[|topic.log| - 1].0 == |topic.sent|;
    }

    /** The live channel: a receiver too far behind is told so once and moved up. */
    method TryLive() returns (r: Live)
      requires Valid()
      modifies `received
      ensures Valid() && received == Looked(|topic.sent|, topic.channelCap, old(received))
      ensures r == if |topic.sent| - old(received) > topic.channelCap then Lagged
                   else if old(received) < |topic.sent| then Got(topic.sent[old(received)]) else Nothing
    {
      if |topic.sent| - received > topic.channelCap {
        received := |topic.sent| - topic.channelCap;
        return Lagged;
      } else if received < |topic.sent| {
        received := received + 1;
        return Got(topic.sent[received - 1]);
      }
      return Nothing;
    }

    /** Only the log is delivered; live messages are wake-ups. */
    method TryRecv() returns (m: Option<BusMessage>)
      requires Valid()
      modifies cursor, `received
      ensures Valid() && (m, cursor.value) == old(Delivery())
      ensures received == if m.Some? then old(received) else Looked(|topic.sent|, topic.channelCap, old(received))
    {
      m := NextFromLog();
      if m.Some? {
        return;
      }
      var live := TryLive();
      match live {
        case Got(_) => m := NextFromLog();
        case Lagged => m := NextFromLog();
        case Nothing => m := None;
      }
    }

    /**
     * `None` stands for waiting. With nothing new in the log the next live message is handed over as it is, although
     * its number is not ahead of the cursor.
     */
    method Recv() returns (m: Option<BusMessage>)
      requires Valid()
      modifies cursor, `received
      ensures Valid()
      ensures var n := |topic.sent|;
              var (found, c, r) := Heard(n, topic.durableCap, n, topic.channelCap, old(cursor.value), old(received));
              cursor.value == c && received == r &&
              match found
              case FromLog(k) => 0 < k <= n && m == Some(topic.sent[k - 1])
              case FromChannel(i) => m == Some(topic.sent[i])
              case Waits => m == None
    {
      while true
        invariant Valid() && cursor.value == old(cursor.value) && topic.sent == old(topic.sent)
        invariant received == old(received) || received == Caught(|topic.sent|, topic.channelCap, old(received))
        invariant received != old(received) ==> NextSeq(|topic.sent|, topic.durableCap, cursor.value).None?
        decreases |topic.sent| - received
      {
        m := NextFromLog();
        if m.Some? {
          return;
        }
        var live := TryLive();
        match live {
          case Got(message) =>
            m := NextFromLog();
            return if m.Some? then m else Some(message);
          case Lagged =>
          case Nothing => return None;
        }
      }
    }

    /** Reads everything from the first retained message behind the cursor up to the head. */
    method DrainLog() returns (out: seq<BusMessage>)
      requires Valid() && topic.durableCap > 0
      modifies cursor
      ensures Valid() && cursor.value == |topic.sent|
      ensures out == topic.sent[Max(old(cursor.value), Evicted(|topic.sent|, topic.durableCap))..]
    {
      out := [];
      ghost var from := Max(cursor.value, Evicted(|topic.sent|, topic.durableCap));
      ghost var done := from;
      var m := NextFromLog();
      while m.Some?
        invariant Valid() && topic.sent == old(topic.sent)
        invariant from <= done <= |topic.sent| && out == topic.sent[from..done]
        invariant m.Some? ==> done + 1 == cursor.value && done < |topic.sent| && m.value == topic.sent[done]
        invariant m.None? ==> done == cursor.value == |topic.sent|
        decreases m.Some?, |topic.sent| - cursor.value
      {
        assert topic.sent[from..done + 1] == topic.sent[from..done] + [topic.sent[done]];
        out, done := out + [m.value], done + 1;
        m := NextFromLog();
      }
    }
  }

  // --- Runs with one reader ---------------------------------------------------------

  datatype Op = Send | Receive

  /** Messages are named by their numbers; `delivered` records what the reader got, in order. */
  datatype Reader = Reader(sent: nat, cursor: nat, delivered: seq<nat>)

  function StepOne(cap: nat, r: Reader, op: Op): Reader {
    match op
    case Send => r.(sent := r.sent + 1)
    case Receive =>
      match NextSeq(r.sent, cap, r.cursor)
      case Some(k) => r.(cursor := k, delivered := r.delivered + [k])
      case None => r
  }

  function RunOne(cap: nat, ops: seq<Op>): Reader {
    if ops == [] then Reader(0, 0, []) else StepOne(cap, RunOne(cap, ops[..|ops| - 1]), ops[|ops| - 1])
  }

  /** One reader gets ever higher numbers: nothing twice and nothing out of order. */
  lemma {:induction false} InOrder(cap: nat, ops: seq<Op>)
    ensures var r := RunOne(cap, ops);
            r.cursor <= r.sent &&
            (forall i :: 0 <= i < |r.delivered| ==> 1 <= r.delivered[i] <= r.cursor) &&
            (forall i, j :: 0 <= i < j < |r.delivered| ==> r.delivered[i] < r.delivered[j])
  {
    if ops != [] {
      InOrder(cap, ops[..|ops| - 1]);
    }
  }

  /** The reader never tries to receive with more than `cap` messages outstanding. */
  ghost predicate KeepsUp(cap: nat, ops: seq<Op>) {
    forall k :: 0 <= k < |ops| && ops[k] == Receive ==> Outstanding(cap, ops, k) <= cap
  }

  ghost function Outstanding(cap: nat, ops: seq<Op>, k: nat): int
    requires k <= |ops|
  {
    var r := RunOne(cap, ops[..k]);
    r.sent - r.cursor
  }

  /** The first messages, all of them and in order. */
  ghost predicate Gapless(r: Reader) {
    |r.delivered| == r.cursor && forall i :: 0 <= i < |r.delivered| ==> r.delivered[i] == i + 1
  }

  lemma KeepsUpPrefix(cap: nat, ops: seq<Op>)
    requires ops != []
    ensures KeepsUp(cap, ops) <==>
            (KeepsUp(cap, ops[..|ops| - 1]) && (ops[|ops| - 1] == Receive ==> Outstanding(cap, ops, |ops| - 1) <= cap))
  {
    var init := ops[..|ops| - 1];
    assert forall k :: 0 <= k < |init| ==> init[..k] == ops[..k];
    assert forall k :: 0 <= k < |init| ==> Outstanding(cap, init, k) == Outstanding(cap, ops, k);
  }

  /**
   * Exactly the readers that keep up get every message once and in publish order, and for them the reported lag is
   * the number of messages not yet delivered.
   */
  lemma {:induction false} ExactlyOnceIff(cap: nat, ops: seq<Op>)
    requires cap > 0
    ensures var r := RunOne(cap, ops);
            (Gapless(r) <==> KeepsUp(cap, ops)) &&
            (r.sent - r.cursor == r.sent - |r.delivered| <==> KeepsUp(cap, ops))
  {
    if ops != [] {
      ExactlyOnceIff(cap, ops[..|ops| - 1]);
      KeepsUpPrefix(cap, ops);
      AtMostCursor(cap, ops[..|ops| - 1]);
    }
  }

  lemma {:induction false} AtMostCursor(cap: nat, ops: seq<Op>)
    ensures var r := RunOne(cap, ops); |r.delivered| <= r.cursor <= r.sent
  {
    if ops != [] {
      AtMostCursor(cap, ops[..|ops| - 1]);
    }
  }

  // --- Waiting readers --------------------------------------------------------------

  /** A publisher appends to the log and sends to the channel later; others may come in between. */
  datatype GroupOp = Enter | Fan(number: nat) | Join(reader: nat) | Poll(reader: nat) | Wait(reader: nat)

  /**
   * A group with its receivers: `pending` messages are in the log and not yet sent, `channel` is everything sent, in
   * the order of sending. `read` came from the log, `handed` from the channel.
   */
  datatype Hub = Hub(
    appended: nat, pending: set<nat>, channel: seq<nat>, cursor: nat, received: map<nat, nat>, read: seq<nat>,
        handed: seq<nat>)

  predicate Placed(h: Hub) {
    && h.cursor <= h.appended && (forall r :: r in h.received ==> h.received[r] <= |h.channel|)
    && (forall k :: k in h.pending ==> 1 <= k <= h.appended) && forall k :: k in h.channel ==> 1 <= k <= h.appended
  }

  function StepHub(durableCap: nat, channelCap: nat, h: Hub, op: GroupOp): (h': Hub)
    requires Placed(h)
    ensures Placed(h')
  {
    match op
    case Enter => h.(appended := h.appended + 1, pending := h.pending + {h.appended + 1})
    case Fan(k) => if k in h.pending then h.(pending := h.pending - {k}, channel := h.channel + [k]) else h
    case Join(r) => h.(received := h.received[r := |h.channel|])
    case Poll(r) =>
      if r !in h.received then h
      else
        (match NextSeq(h.appended, durableCap, h.cursor)
         case Some(k) => h.(cursor := k, read := h.read + [k])
         case None => h.(received := h.received[r := Looked(|h.channel|, channelCap, h.received[r])]))
    case Wait(r) =>
      if r !in h.received then h
      else
        var (found, c, at) := Heard(h.appended, durableCap, |h.channel|, channelCap, h.cursor, h.received[r]);
        var h' := h.(cursor := c, received := h.received[r := at]);
        match found
        case FromLog(k) => h'.(read := h.read + [k])
        case FromChannel(i) => h'.(handed := h.handed + [h.channel[i]])
        case Waits => h'
  }

  const NoHub := Hub(0, {}, [], 0, map[], [], [])

  function RunHub(durableCap: nat, channelCap: nat, ops: seq<GroupOp>): (h: Hub)
    ensures Placed(h)
  {
    if ops == [] then NoHub
    else StepHub(durableCap, channelCap, RunHub(durableCap, channelCap, ops[..|ops| - 1]), ops[|ops| - 1])
  }

  /** Every live copy that was handed over had been read from the log by the group. */
  ghost predicate OnlyRedeliveries(h: Hub) {
    forall k :: k in h.handed ==> k in h.read
  }

  ghost predicate ReadOrEvicted(durableCap: nat, h: Hub) {
    forall k :: 1 <= k <= h.cursor ==> k in h.read || k <= Evicted(h.appended, durableCap)
  }

  /** No message waits to be sent until `late` more have been appended. */
  ghost predicate Prompt(late: nat, h: Hub) {
    forall k :: k in h.pending ==> h.appended - k < late
  }

  ghost predicate PromptAt(durableCap: nat, channelCap: nat, late: nat, ops: seq<GroupOp>, n: nat)
    requires n <= |ops|
  {
    Prompt(late, RunHub(durableCap, channelCap, ops[..n]))
  }

  ghost predicate PromptRun(durableCap: nat, channelCap: nat, late: nat, ops: seq<GroupOp>) {
    forall n :: 0 <= n <= |ops| ==> PromptAt(durableCap, channelCap, late, ops, n)
  }

  /** How old a message can be at its place in the channel. */
  ghost predicate AgesBounded(late: nat, h: Hub) {
    forall i :: 0 <= i < |h.channel| ==> h.appended - h.channel[i] <= |h.channel| - 1 - i + |h.pending| + late - 1
  }

  lemma {:induction false} FewBetween(s: set<nat>, low: int, high: int)
    requires forall k :: k in s ==> low < k <= high
    ensures low <= high ==> |s| <= high - low
    ensures low > high ==> s == {}
    decreases high - low
  {
    if low < high {
      FewBetween(s - {high}, low, high - 1);
      assert s <= (s - {high}) + {high};
      if high in s {
        assert |s| == |s - {high}| + 1;
      } else {
        assert s - {high} == s;
      }
    } else {
      assert s == {};
    }
  }

  lemma FewPending(late: nat, h: Hub)
    requires Prompt(late, h) && Placed(h)
    ensures |h.pending| <= late
  {
    FewBetween(h.pending, h.appended - late, h.appended);
  }

  lemma StepAges(durableCap: nat, channelCap: nat, late: nat, h: Hub, op: GroupOp)
    requires Placed(h) && Prompt(late, h) && AgesBounded(late, h)
    ensures AgesBounded(late, StepHub(durableCap, channelCap, h, op))
  {
    if op.Enter? {
      assert |h.pending + {h.appended + 1}| == |h.pending| + 1;
    } else if op.Fan? && op.number in h.pending {
      assert |h.pending - {op.number}| == |h.pending| - 1;
    }
  }

  /** What a channel this small still holds, the log holds too, or the group has read it. */
  lemma HandedWasRead(durableCap: nat, channelCap: nat, late: nat, h: Hub, i: nat)
    requires Placed(h) && Prompt(late, h) && AgesBounded(late, h) && ReadOrEvicted(durableCap, h)
    requires |h.channel| - channelCap <= i < |h.channel| && channelCap + 2 * late < durableCap + 2
    requires NextSeq(h.appended, durableCap, h.cursor).None? && durableCap > 0
    ensures h.channel[i] in h.read
  {
    FewPending(late, h);
    assert h.channel[i] in h.channel;
    assert h.appended - h.channel[i] < durableCap;
  }

  lemma StepRedelivers(durableCap: nat, channelCap: nat, late: nat, h: Hub, op: GroupOp)
    requires Placed(h) && Prompt(late, h) && AgesBounded(late, h) &&
        (channelCap == 0 || channelCap + 2 * late < durableCap + 2)
    requires late > 0 && OnlyRedeliveries(h) && ReadOrEvicted(durableCap, h)
    ensures var h' := StepHub(durableCap, channelCap, h, op); OnlyRedeliveries(h') && ReadOrEvicted(durableCap, h')
  {
    var h' := StepHub(durableCap, channelCap, h, op);
    assert forall k :: k in h.read ==> k in h'.read;
    if h'.cursor > h.cursor {
      assert h'.read[|h.read|] == h'.cursor;
    }
    if |h'.handed| > |h.handed| {
      var at := Caught(|h.channel|, channelCap, h.received[op.reader]);
      HandedWasRead(durableCap, channelCap, late, h, at);
    }
  }

  lemma PromptPrefix(durableCap: nat, channelCap: nat, late: nat, ops: seq<GroupOp>, n: nat)
    requires n < |ops|
    ensures PromptAt(durableCap, channelCap, late, ops[..|ops| - 1], n) <==>
        PromptAt(durableCap, channelCap, late, ops, n)
  {
    assert ops[..|ops| - 1][..n] == ops[..n];
  }

  lemma PromptEnd(durableCap: nat, channelCap: nat, late: nat, ops: seq<GroupOp>)
    ensures PromptAt(durableCap, channelCap, late, ops, |ops|) <==> Prompt(late, RunHub(durableCap, channelCap, ops))
  {
    assert ops[..|ops|] == ops;
  }

  lemma PromptBefore(durableCap: nat, channelCap: nat, late: nat, ops: seq<GroupOp>)
    requires ops != [] && PromptRun(durableCap, channelCap, late, ops)
    ensures PromptRun(durableCap, channelCap, late, ops[..|ops| - 1]) &&
        Prompt(late, RunHub(durableCap, channelCap, ops))
  {
    PromptEnd(durableCap, channelCap, late, ops);
    var init := ops[..|ops| - 1];
    forall n | 0 <= n <= |init| ensures PromptAt(durableCap, channelCap, late, init, n) {
      PromptPrefix(durableCap, channelCap, late, ops, n);
    }
  }

  lemma PromptAfter(durableCap: nat, channelCap: nat, late: nat, ops: seq<GroupOp>)
    requires ops != [] && PromptRun(durableCap, channelCap, late, ops[..|ops| - 1]) &&
        Prompt(late, RunHub(durableCap, channelCap, ops))
    ensures PromptRun(durableCap, channelCap, late, ops)
  {
    PromptEnd(durableCap, channelCap, late, ops);
    forall n | 0 <= n < |ops| ensures PromptAt(durableCap, channelCap, late, ops, n) {
      PromptPrefix(durableCap, channelCap, late, ops, n);
    }
  }

  lemma {:induction false} RunRedelivers(durableCap: nat, channelCap: nat, late: nat, ops: seq<GroupOp>)
    requires late > 0 && (channelCap == 0 || channelCap + 2 * late < durableCap + 2) &&
        PromptRun(durableCap, channelCap, late, ops)
    ensures var h := RunHub(durableCap, channelCap, ops);
            OnlyRedeliveries(h) && ReadOrEvicted(durableCap, h) && AgesBounded(late, h) && Prompt(late, h)
  {
    if ops != [] {
      var init := ops[..|ops| - 1];
      PromptBefore(durableCap, channelCap, late, ops);
      RunRedelivers(durableCap, channelCap, late, init);
      StepAges(durableCap, channelCap, late, RunHub(durableCap, channelCap, init), ops[|ops| - 1]);
      StepRedelivers(durableCap, channelCap, late, RunHub(durableCap, channelCap, init), ops[|ops| - 1]);
    }
  }

  // --- A late copy of a message nobody read -----------------------------------------

  lemma OneMoreOp(durableCap: nat, channelCap: nat, late: nat, ops: seq<GroupOp>, op: GroupOp, h: Hub)
    returns (more: seq<GroupOp>)
    requires PromptRun(durableCap, channelCap, late, ops) && RunHub(durableCap, channelCap, ops) == h
    requires Prompt(late, StepHub(durableCap, channelCap, h, op))
    ensures PromptRun(durableCap, channelCap, late, more) &&
        RunHub(durableCap, channelCap, more) == StepHub(durableCap, channelCap, h, op)
  {
    more := ops + [op];
    assert more[..|ops|] == ops;
    PromptAfter(durableCap, channelCap, late, more);
  }

  /** The numbers after `from` up to `to`. */
  function Between(from: nat, to: nat): (r: set<nat>)
    ensures forall k :: k in r <==> from < k <= to
  {
    if to <= from then {} else Between(from, to - 1) + {to}
  }

  /** A receiver that got nothing yet, and messages of which none has been read. */
  function Unread(appended: nat, pending: set<nat>, channel: seq<nat>): Hub {
    Hub(appended, pending, channel, 0, map[0 := 0], [], [])
  }

  lemma Started(durableCap: nat, channelCap: nat, late: nat) returns (ops: seq<GroupOp>)
    ensures PromptRun(durableCap, channelCap, late, ops) && RunHub(durableCap, channelCap, ops) == Unread(0, {}, [])
  {
    var none: seq<GroupOp> := [];
    assert PromptAt(durableCap, channelCap, late, none, 0);
    ops := OneMoreOp(durableCap, channelCap, late, none, Join(0), NoHub);
  }

  /** `count` messages more, all of them waiting to be sent. */
  lemma {:induction false} Stalled(durableCap: nat, channelCap: nat, late: nat, ops: seq<GroupOp>, n: nat,
      channel: seq<nat>, count: nat)
    returns (more: seq<GroupOp>)
    requires PromptRun(durableCap, channelCap, late, ops) &&
        RunHub(durableCap, channelCap, ops) == Unread(n, {}, channel)
    requires count <= late
    ensures PromptRun(durableCap, channelCap, late, more)
    ensures RunHub(durableCap, channelCap, more) == Unread(n + count, Between(n, n + count), channel)
  {
    if count == 0 {
      more := ops;
      assert Between(n, n) == {};
    } else {
      more := Stalled(durableCap, channelCap, late, ops, n, channel, count - 1);
      assert Between(n, n + count - 1) + {n + count} == Between(n, n + count);
      more := OneMoreOp(durableCap, channelCap, late, more, Enter,
          Unread(n + count - 1, Between(n, n + count - 1), channel));
    }
  }

  /** The first message stalls while `late - 1` others overtake it. */
  lemma {:induction false} Overtaken(durableCap: nat, channelCap: nat, late: nat, count: nat)
    returns (ops: seq<GroupOp>, channel: seq<nat>)
    requires count < late
    ensures PromptRun(durableCap, channelCap, late, ops) && |channel| == count
    ensures RunHub(durableCap, channelCap, ops) == Unread(late, Between(count + 1, late) + {1}, channel)
  {
    if count == 0 {
      ops := Started(durableCap, channelCap, late);
      channel := [];
      ops := Stalled(durableCap, channelCap, late, ops, 0, channel, late);
      assert Between(1, late) + {1} == Between(0, late);
    } else {
      ops, channel := Overtaken(durableCap, channelCap, late, count - 1);
      assert Between(count, late) + {1} - {count + 1} == Between(count + 1, late) + {1};
      ops := OneMoreOp(durableCap, channelCap, late, ops, Fan(count + 1),
          Unread(late, Between(count, late) + {1}, channel));
      channel := channel + [count + 1];
    }
  }

  lemma FirstComesLast(durableCap: nat, channelCap: nat, late: nat) returns (ops: seq<GroupOp>, channel: seq<nat>)
    requires late > 0
    ensures PromptRun(durableCap, channelCap, late, ops) &&
        RunHub(durableCap, channelCap, ops) == Unread(late, {}, channel)
    ensures |channel| == late && channel[late - 1] == 1
  {
    ops, channel := Overtaken(durableCap, channelCap, late, late - 1);
    assert Between(late, late) + {1} - {1} == {};
    ops := OneMoreOp(durableCap, channelCap, late, ops, Fan(1), Unread(late, Between(late, late) + {1}, channel));
    channel := channel + [1];
  }

  /** One message more, published without delay. */
  lemma PublishedAtOnce(durableCap: nat, channelCap: nat, late: nat, ops: seq<GroupOp>, n: nat, channel: seq<nat>)
    returns (more: seq<GroupOp>)
    requires late > 0 && PromptRun(durableCap, channelCap, late, ops) &&
        RunHub(durableCap, channelCap, ops) == Unread(n, {}, channel)
    ensures PromptRun(durableCap, channelCap, late, more)
    ensures RunHub(durableCap, channelCap, more) == Unread(n + 1, {}, channel + [n + 1])
  {
    more := Stalled(durableCap, channelCap, late, ops, n, channel, 1);
    assert Between(n, n + 1) - {n + 1} == {};
    more := OneMoreOp(durableCap, channelCap, late, more, Fan(n + 1), Unread(n + 1, Between(n, n + 1), channel));
  }

  /** Then `count` messages are published without delay. */
  lemma {:induction false} Followed(durableCap: nat, channelCap: nat, late: nat, count: nat)
    returns (ops: seq<GroupOp>, channel: seq<nat>)
    requires late > 0
    ensures PromptRun(durableCap, channelCap, late, ops) &&
        RunHub(durableCap, channelCap, ops) == Unread(late + count, {}, channel)
    ensures |channel| == late + count && channel[late - 1] == 1
  {
    if count == 0 {
      ops, channel := FirstComesLast(durableCap, channelCap, late);
    } else {
      ops, channel := Followed(durableCap, channelCap, late, count - 1);
      ops := PublishedAtOnce(durableCap, channelCap, late, ops, late + count - 1, channel);
      channel := channel + [late + count];
    }
  }

  /** Of `n` messages, more than the log holds, the last `k` have been polled for. */
  lemma {:induction false} Polled(durableCap: nat, channelCap: nat, late: nat, ops: seq<GroupOp>, h: Hub, k: nat)
    returns (more: seq<GroupOp>)
    requires PromptRun(durableCap, channelCap, late, ops) && RunHub(durableCap, channelCap, ops) == h && Prompt(late, h)
    requires h.cursor == 0 && h.read == [] && 0 in h.received && k <= durableCap < h.appended
    ensures PromptRun(durableCap, channelCap, late, more)
    ensures var h' := RunHub(durableCap, channelCap, more);
            h' == h.(cursor := h'.cursor, read := h'.read) && 1 !in h'.read &&
            h'.cursor == if k == 0 then 0 else h.appended - durableCap + k
  {
    if k == 0 {
      more := ops;
    } else {
      more := Polled(durableCap, channelCap, late, ops, h, k - 1);
      more := OneMoreOp(durableCap, channelCap, late, more, Poll(0), RunHub(durableCap, channelCap, more));
    }
  }

  /** With a channel this large or publishers this slow, a waiting reader can be handed a message nobody ever read. */
  lemma UnreadCopy(durableCap: nat, channelCap: nat, late: nat) returns (ops: seq<GroupOp>)
    requires late > 0 && channelCap > 0 && channelCap + 2 * late >= durableCap + 2
    ensures PromptRun(durableCap, channelCap, late, ops) && !OnlyRedeliveries(RunHub(durableCap, channelCap, ops))
  {
    var channel;
    var n := late + channelCap - 1;
    ops, channel := Followed(durableCap, channelCap, late, channelCap - 1);
    ops := Stalled(durableCap, channelCap, late, ops, n, channel, late);
    ops := Polled(durableCap, channelCap, late, ops, Unread(n + late, Between(n, n + late), channel), durableCap);
    var h := RunHub(durableCap, channelCap, ops);
    assert Caught(|channel|, channelCap, 0) == late - 1;
    ops := OneMoreOp(durableCap, channelCap, late, ops, Wait(0), h);
    assert RunHub(durableCap, channelCap, ops).handed == [1];
  }

  /**
   * While no message waits to be sent until `late` more are appended, what a waiting reader is handed beyond the log
   * was read by its group before, in every run, exactly when the channel and twice the delay fit into the log.
   */
  lemma OnlyRedeliveriesIff(durableCap: nat, channelCap: nat, late: nat)
    requires late > 0
    ensures (forall ops :: PromptRun(durableCap, channelCap, late, ops) ==>
        OnlyRedeliveries(RunHub(durableCap, channelCap, ops))) <==>
              (channelCap == 0 || channelCap + 2 * (late - 1) < durableCap)
  {
    if channelCap == 0 || channelCap + 2 * (late - 1) < durableCap {
      forall ops | PromptRun(durableCap, channelCap, late, ops)
          ensures OnlyRedeliveries(RunHub(durableCap, channelCap, ops)) {
        RunRedelivers(durableCap, channelCap, late, ops);
      }
    } else {
      var ops := UnreadCopy(durableCap, channelCap, late);
    }
  }

  // --- What is delivered twice ------------------------------------------------------

  /** A reader waits with the log read up while its receiver is behind: it is handed a live copy. */
  predicate HandsCopy(durableCap: nat, channelCap: nat, h: Hub, op: GroupOp)
    requires Placed(h)
  {
    op.Wait? && op.reader in h.received && NextSeq(h.appended, durableCap, h.cursor).None? &&
    channelCap > 0 && h.received[op.reader] < |h.channel|
  }

  ghost predicate HandsCopyAt(durableCap: nat, channelCap: nat, ops: seq<GroupOp>, n: nat)
    requires n < |ops|
  {
    HandsCopy(durableCap, channelCap, RunHub(durableCap, channelCap, ops[..n]), ops[n])
  }

  ghost predicate NoCopies(durableCap: nat, channelCap: nat, ops: seq<GroupOp>) {
    forall n :: 0 <= n < |ops| ==> !HandsCopyAt(durableCap, channelCap, ops, n)
  }

  lemma CopiesPrefix(durableCap: nat, channelCap: nat, ops: seq<GroupOp>, n: nat)
    requires n < |ops| - 1
    ensures HandsCopyAt(durableCap, channelCap, ops[..|ops| - 1], n) <==> HandsCopyAt(durableCap, channelCap, ops, n)
  {
    assert ops[..|ops| - 1][..n] == ops[..n];
  }

  lemma NoCopiesLast(durableCap: nat, channelCap: nat, ops: seq<GroupOp>)
    requires ops != []
    ensures NoCopies(durableCap, channelCap, ops) <==>
              NoCopies(durableCap, channelCap, ops[..|ops| - 1]) && !HandsCopyAt(durableCap, channelCap, ops, |ops| - 1)
  {
    var init := ops[..|ops| - 1];
    if NoCopies(durableCap, channelCap, ops) {
      forall n | 0 <= n < |init| ensures !HandsCopyAt(durableCap, channelCap, init, n) {
        CopiesPrefix(durableCap, channelCap, ops, n);
      }
    } else if NoCopies(durableCap, channelCap, init) {
      var n :| 0 <= n < |ops| && HandsCopyAt(durableCap, channelCap, ops, n);
      if n < |init| {
        CopiesPrefix(durableCap, channelCap, ops, n);
      }
    }
  }

  /** The numbers read from the log grow up to the cursor. */
  ghost predicate Growing(h: Hub) {
    (forall i :: 0 <= i < |h.read| ==> h.read[i] <= h.cursor) && forall i, j :: 0 <= i < j < |h.read| ==>
        h.read[i] < h.read[j]
  }

  lemma StepGrows(durableCap: nat, channelCap: nat, h: Hub, op: GroupOp)
    requires Placed(h) && Growing(h)
    ensures var h' := StepHub(durableCap, channelCap, h, op);
            Growing(h') && (h'.handed == [] <==> h.handed == [] && !HandsCopy(durableCap, channelCap, h, op))
  {
  }

  /** Copies come exactly from the waits named above. */
  lemma {:induction false} ReadsGrow(durableCap: nat, channelCap: nat, ops: seq<GroupOp>)
    ensures var h := RunHub(durableCap, channelCap, ops);
            Growing(h) && (h.handed == [] <==> NoCopies(durableCap, channelCap, ops))
  {
    if ops != [] {
      var k := |ops| - 1;
      ReadsGrow(durableCap, channelCap, ops[..k]);
      NoCopiesLast(durableCap, channelCap, ops);
      StepGrows(durableCap, channelCap, RunHub(durableCap, channelCap, ops[..k]), ops[k]);
    }
  }

  /**
   * Where live copies are only redeliveries, a group is given every message at most once exactly when nobody waits with
   * the log read up and an old live copy outstanding.
   */
  lemma DeliveredOnceIff(durableCap: nat, channelCap: nat, ops: seq<GroupOp>)
    requires OnlyRedeliveries(RunHub(durableCap, channelCap, ops))
    ensures var h := RunHub(durableCap, channelCap, ops);
            NoRepeats(h.read + h.handed) <==> NoCopies(durableCap, channelCap, ops)
  {
    ReadsGrow(durableCap, channelCap, ops);
    var h := RunHub(durableCap, channelCap, ops);
    var all := h.read + h.handed;
    if h.handed != [] {
      assert h.handed[0] in h.handed;
      var i :| 0 <= i < |h.read| && h.read[i] == h.handed[0];
      assert all[i] == all[|h.read|];
    } else {
      assert all == h.read;
    }
  }

  /** A message read from the log is still in the live channel and is handed over a second time. */
  lemma WaitDeliversTwice(durableCap: nat, channelCap: nat) returns (ops: seq<GroupOp>)
    requires durableCap > 0 && channelCap > 0
    ensures var h := RunHub(durableCap, channelCap, ops); h.read == [1] && h.handed == [1]
  {
    var channel;
    ops, channel := Followed(durableCap, channelCap, 1, 0);
    var h := Unread(1, {}, channel);
    ops := OneMoreOp(durableCap, channelCap, 1, ops, Wait(0), h);
    ops := OneMoreOp(durableCap, channelCap, 1, ops, Wait(0), h.(cursor := 1, read := [1]));
  }
}
