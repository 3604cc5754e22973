/**
 * Publishers and several readers of one group, interleaved. A read is two steps: load the cursor and find the next
 * log entry, then store its number in the cursor and hand the message over.
 */
module BusInterleaving {
  import opened GraphModel
  import opened Bus

  type ReaderId = nat

  /** Messages are named by their numbers; `holding` are the reads between their two steps. */
  datatype Group = Group(sent: nat, cursor: nat, holding: map<ReaderId, nat>, delivered: seq<nat>)

  const InitialGroup := Group(0, 0, map[], [])

  datatype Action = Append | Load(reader: ReaderId) | Store(reader: ReaderId)

  function Act(cap: nat, g: Group, a: Action): Group {
    match a
    case Append => g.(sent := g.sent + 1)
    case Load(r) =>
      if r in g.holding then g
      else (match NextSeq(g.sent, cap, g.cursor)
            case Some(k) => g.(holding := g.holding[r := k])
            case None => g)
    case Store(r) =>
      if r !in g.holding then g
      else g.(cursor := g.holding[r], holding := g.holding - {r}, delivered := g.delivered + [g.holding[r]])
  }

  function RunActs(cap: nat, acts: seq<Action>): Group {
    if acts == [] then InitialGroup else Act(cap, RunActs(cap, acts[..|acts| - 1]), acts[|acts| - 1])
  }

  /** A message is accounted for when it was handed over, is about to be, or has left the log. */
  ghost predicate Accounted(cap: nat, g: Group, k: nat) {
    k in g.delivered || k in g.holding.Values || k <= Evicted(g.sent, cap)
  }

  ghost predicate NothingSkipped(cap: nat, g: Group) {
    g.cursor <= g.sent &&
    (forall k :: 1 <= k <= g.cursor ==> Accounted(cap, g, k)) &&
    (forall r, k :: r in g.holding && 1 <= k <= g.holding[r] ==> Accounted(cap, g, k)) &&
    (forall r :: r in g.holding ==> 1 <= g.holding[r] <= g.sent)
  }

  lemma ActKeepsAccounts(cap: nat, g: Group, a: Action, k: nat)
    requires Accounted(cap, g, k)
    ensures Accounted(cap, Act(cap, g, a), k)
  {
    var g' := Act(cap, g, a);
    if k in g.delivered {
      assert k in g'.delivered;
    } else if k in g.holding.Values {
      var r :| r in g.holding && g.holding[r] == k;
      if a == Store(r) {
        assert g'.delivered[|g.delivered|] == k;
      } else {
        assert r in g'.holding && g'.holding[r] == k;
      }
    }
  }

  lemma LoadAccounts(cap: nat, g: Group, r: ReaderId, k: nat)
    requires NothingSkipped(cap, g) && r !in g.holding
    requires NextSeq(g.sent, cap, g.cursor).Some? && 1 <= k <= NextSeq(g.sent, cap, g.cursor).value
    ensures Accounted(cap, Act(cap, g, Load(r)), k)
  {
    var n := NextSeq(g.sent, cap, g.cursor).value;
    var g' := Act(cap, g, Load(r));
    if k == n {
      assert g'.holding[r] == k;
    } else if k <= g.cursor {
      ActKeepsAccounts(cap, g, Load(r), k);
    }
  }

  lemma {:induction false} RunSkipsNothing(cap: nat, acts: seq<Action>)
    ensures NothingSkipped(cap, RunActs(cap, acts))
  {
    if acts != [] {
      var g, a := RunActs(cap, acts[..|acts| - 1]), acts[|acts| - 1];
      RunSkipsNothing(cap, acts[..|acts| - 1]);
      ActSkipsNothing(cap, g, a);
    }
  }

  lemma ActSkipsNothing(cap: nat, g: Group, a: Action)
    requires NothingSkipped(cap, g)
    ensures NothingSkipped(cap, Act(cap, g, a))
  {
    var g' := Act(cap, g, a);
    forall k | 1 <= k <= g'.cursor ensures Accounted(cap, g', k) {
      ActKeepsAccounts(cap, g, a, k);
    }
    forall r, k | r in g'.holding && 1 <= k <= g'.holding[r] ensures Accounted(cap, g', k) {
      if r in g.holding {
        ActKeepsAccounts(cap, g, a, k);
      } else {
        LoadAccounts(cap, g, r, k);
      }
    }
  }

  /** In every interleaving, each number up to the cursor was delivered, is being delivered, or was evicted. */
  lemma CursorNeverSkips(cap: nat, acts: seq<Action>, k: nat)
    ensures var g := RunActs(cap, acts);
            1 <= k <= g.cursor ==>
              k in g.delivered || (exists r :: r in g.holding && g.holding[r] == k) || k <= Evicted(g.sent, cap)
  {
    RunSkipsNothing(cap, acts);
    var g := RunActs(cap, acts);
    assert 1 <= k <= g.cursor ==> Accounted(cap, g, k);
  }

  /** Once the readers have stopped with nothing left to read, every message still in the log was delivered. */
  lemma DrainedMeansDelivered(cap: nat, acts: seq<Action>, k: nat)
    requires var g := RunActs(cap, acts); g.holding == map[] && g.cursor == g.sent && Evicted(g.sent, cap) < k <= g.sent
    ensures k in RunActs(cap, acts).delivered
  {
    RunSkipsNothing(cap, acts);
    assert Accounted(cap, RunActs(cap, acts), k);
  }

  // --- Going back -------------------------------------------------------------------

  ghost predicate Increasing(s: seq<nat>) {
    forall i, j :: 0 <= i < j < |s| ==> s[i] < s[j]
  }

  /** The store moves the cursor forward, if it does anything. */
  ghost predicate Ahead(g: Group, a: Action) {
    a.Store? && a.reader in g.holding ==> g.holding[a.reader] > g.cursor
  }

  ghost predicate AllAhead(cap: nat, acts: seq<Action>) {
    forall k :: 0 <= k < |acts| ==> Ahead(RunActs(cap, acts[..k]), acts[k])
  }

  lemma AllAheadLast(cap: nat, acts: seq<Action>)
    requires acts != []
    ensures AllAhead(cap, acts) <==>
            (AllAhead(cap, acts[..|acts| - 1]) && Ahead(RunActs(cap, acts[..|acts| - 1]), acts[|acts| - 1]))
  {
    var init := acts[..|acts| - 1];
    assert forall k :: 0 <= k < |init| ==> init[..k] == acts[..k];
  }

  lemma {:induction false} CursorIsLast(cap: nat, acts: seq<Action>)
    ensures var g := RunActs(cap, acts); g.cursor == if g.delivered == [] then 0 else g.delivered[|g.delivered| - 1]
  {
    if acts != [] {
      CursorIsLast(cap, acts[..|acts| - 1]);
    }
  }

  lemma AppendIncreasing(s: seq<nat>, x: nat)
    requires forall i :: 0 <= i < |s| ==> s[i] >= 1
    ensures Increasing(s + [x]) <==> Increasing(s) && (s != [] ==> x > s[|s| - 1])
  {
    var t := s + [x];
    if Increasing(t) {
      forall i, j | 0 <= i < j < |s| ensures s[i] < s[j] {
        assert t[i] < t[j];
      }
      assert s != [] ==> t[|s| - 1] < t[|s|];
    }
  }

  lemma {:induction false} NumbersFromOne(cap: nat, acts: seq<Action>)
    ensures forall i :: 0 <= i < |RunActs(cap, acts).delivered| ==> RunActs(cap, acts).delivered[i] >= 1
  {
    RunSkipsNothing(cap, acts);
    if acts != [] {
      NumbersFromOne(cap, acts[..|acts| - 1]);
      RunSkipsNothing(cap, acts[..|acts| - 1]);
    }
  }

  /**
   * Messages are delivered once and in order, in every interleaving, exactly when every store finds the cursor behind
   * its number.
   */
  lemma {:induction false} OnceInOrderIff(cap: nat, acts: seq<Action>)
    ensures Increasing(RunActs(cap, acts).delivered) <==> AllAhead(cap, acts)
  {
    if acts != [] {
      var init, a := acts[..|acts| - 1], acts[|acts| - 1];
      var g := RunActs(cap, init);
      OnceInOrderIff(cap, init);
      AllAheadLast(cap, acts);
      CursorIsLast(cap, init);
      NumbersFromOne(cap, init);
      RunSkipsNothing(cap, init);
      if a.Store? && a.reader in g.holding {
        AppendIncreasing(g.delivered, g.holding[a.reader]);
      }
    }
  }

  /** No read starts inside another one. */
  ghost predicate Sequential(cap: nat, acts: seq<Action>) {
    forall k :: 0 <= k < |acts| && acts[k].Load? ==> RunActs(cap, acts[..k]).holding == map[]
  }

  ghost predicate HoldsOneAhead(g: Group) {
    (forall r, q :: r in g.holding && q in g.holding ==> r == q) && forall r :: r in g.holding ==>
        g.holding[r] > g.cursor
  }

  lemma SequentialPrefix(cap: nat, acts: seq<Action>, k: nat)
    requires Sequential(cap, acts) && k <= |acts|
    ensures Sequential(cap, acts[..k])
  {
    forall j | 0 <= j < k && acts[j].Load? ensures RunActs(cap, acts[..k][..j]).holding == map[] {
      assert acts[..k][..j] == acts[..j];
    }
  }

  lemma {:induction false} SequentialHoldsOne(cap: nat, acts: seq<Action>)
    requires Sequential(cap, acts)
    ensures HoldsOneAhead(RunActs(cap, acts))
  {
    if acts != [] {
      var init := acts[..|acts| - 1];
      SequentialPrefix(cap, acts, |init|);
      SequentialHoldsOne(cap, init);
      assert acts[|acts| - 1].Load? ==> RunActs(cap, init).holding == map[];
    }
  }

  /** So reads that do not overlap deliver nothing twice and nothing out of order; overlapping ones may or may not. */
  lemma SequentialReadsDeliverOnce(cap: nat, acts: seq<Action>)
    requires Sequential(cap, acts)
    ensures AllAhead(cap, acts) && Increasing(RunActs(cap, acts).delivered)
  {
    forall k | 0 <= k < |acts| ensures Ahead(RunActs(cap, acts[..k]), acts[k]) {
      SequentialPrefix(cap, acts, k);
      SequentialHoldsOne(cap, acts[..k]);
    }
    OnceInOrderIff(cap, acts);
  }

  const LateStore := [Append, Append, Load(0), Load(1), Store(1), Load(1), Store(1), Store(0)]

  /**
   * A read that starts inside another one can take the cursor back: reader 0 is slow to store, reader 1 delivers both
   * messages meanwhile, then the late store delivers the first one again and rewinds the cursor behind the second.
   */
  lemma CursorCanGoBack(cap: nat)
    requires cap >= 2
    ensures RunActs(cap, LateStore[..7]) == Group(2, 2, map[0 := 1], [1, 2])
    ensures RunActs(cap, LateStore) == Group(2, 1, map[], [1, 2, 1])
  {
    BothLoaded(cap);
    Unroll(cap, LateStore, 4);
    Unroll(cap, LateStore, 5);
    Unroll(cap, LateStore, 6);
    Unroll(cap, LateStore, 7);
    assert LateStore[..8] == LateStore;
  }

  lemma BothLoaded(cap: nat)
    requires cap >= 2
    ensures RunActs(cap, LateStore[..4]) == Group(2, 0, map[0 := 1, 1 := 1], [])
  {
    Unroll(cap, LateStore, 0);
    Unroll(cap, LateStore, 1);
    Unroll(cap, LateStore, 2);
    Unroll(cap, LateStore, 3);
  }

  lemma Unroll(cap: nat, acts: seq<Action>, k: nat)
    requires k < |acts|
    ensures RunActs(cap, acts[..k + 1]) == Act(cap, RunActs(cap, acts[..k]), acts[k])
  {
    assert acts[..k + 1][..k] == acts[..k];
  }
}
