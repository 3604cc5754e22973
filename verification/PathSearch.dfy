/** Bounded breadth-first search for a shortest path, with predecessor walk-back. */
module PathSearch {
  import opened GraphModel
  import opened Reach
  import opened Sorting

  datatype GraphPath = GraphPath(nodes: seq<Node>, edges: seq<Edge>)

  /** The search variables: the queue, hop counts, and how each node was first reached. */
  datatype Search = Search(queue: seq<string>, dist: map<string, nat>, prev: map<string, (string, Edge)>)

  datatype Scan = Found(s: Search) | Continue(s: Search)

  function Start(src: string): Search {
    Search([src], map[src := 0], map[])
  }

  function HopsTo(s: Search, x: string): nat {
    if x in s.dist then s.dist[x] else 0
  }

  /** Relaxes `edges` in order from `cur`, stopping as soon as `dst` is reached. */
  function ScanEdges(nodes: map<string, Node>, edges: seq<Edge>, cur: string, d: nat, dst: string, s: Search): Scan {
    if edges == [] then Continue(s)
    else
      match Other(edges[0], cur)
      case None => ScanEdges(nodes, edges[1..], cur, d, dst, s)
      case Some(other) =>
        if other !in nodes || other in s.dist then ScanEdges(nodes, edges[1..], cur, d, dst, s)
        else
          var reached := Reached(s, cur, d, edges[0], other);
          if other == dst then Found(reached)
          else ScanEdges(nodes, edges[1..], cur, d, dst, reached.(queue := reached.queue + [other]))
  }

  function Reached(s: Search, cur: string, d: nat, e: Edge, other: string): Search {
    s.(dist := s.dist[other := d + 1], prev := s.prev[other := (cur, e)])
  }

  /** Nodes still to discover plus nodes still to expand. */
  ghost function Work(nodes: map<string, Node>, s: Search): nat {
    |nodes.Keys - s.dist.Keys| + |s.queue|
  }

  lemma {:induction false} ScanKeepsWork(nodes: map<string, Node>, edges: seq<Edge>, cur: string, d: nat, dst: string,
      s: Search)
    ensures var r := ScanEdges(nodes, edges, cur, d, dst, s);
            r.Continue? ==> Work(nodes, r.s) == Work(nodes, s)
    decreases |edges|
  {
    if edges != [] {
      var o := Other(edges[0], cur);
      if o.None? || o.value !in nodes || o.value in s.dist {
        ScanKeepsWork(nodes, edges[1..], cur, d, dst, s);
      } else if o.value != dst {
        var t := Reached(s, cur, d, edges[0], o.value);
        var u := t.(queue := t.queue + [o.value]);
        assert nodes.Keys - s.dist.Keys == (nodes.Keys - u.dist.Keys) + {o.value};
        ScanKeepsWork(nodes, edges[1..], cur, d, dst, u);
      }
    }
  }

  /** Takes the front of the queue and relaxes its edges. */
  function Expand(nodes: map<string, Node>, edges: seq<Edge>, dst: string, s: Search): (r: Scan)
    requires s.queue != []
    ensures r.Continue? ==> Work(nodes, r.s) == Work(nodes, s) - 1
  {
    var rest := s.(queue := s.queue[1..]);
    ScanKeepsWork(nodes, edges, s.queue[0], HopsTo(s, s.queue[0]), dst, rest);
    ScanEdges(nodes, edges, s.queue[0], HopsTo(s, s.queue[0]), dst, rest)
  }

  /** The search loop; the state in which `dst` was reached, if it was. */
  function RunSearch(nodes: map<string, Node>, edges: seq<Edge>, dst: string, hops: nat, s: Search): Option<Search>
    decreases Work(nodes, s)
  {
    if s.queue == [] then None
    else if HopsTo(s, s.queue[0]) >= hops then RunSearch(nodes, edges, dst, hops, s.(queue := s.queue[1..]))
    else
      match Expand(nodes, edges, dst, s)
      case Found(t) => Some(t)
      case Continue(t) => RunSearch(nodes, edges, dst, hops, t)
  }

  // --- Invariants -----------------------------------------------------------

  /** Every reached node but `src` has a predecessor one hop nearer. */
  ghost predicate Tree(nodes: map<string, Node>, edges: seq<Edge>, src: string, s: Search) {
    && src in s.dist && s.dist[src] == 0
    && s.dist.Keys <= nodes.Keys
    && (forall x :: x in s.dist && x != src ==>
          x in s.prev && s.prev[x].0 in s.dist && s.dist[x] == s.dist[s.prev[x].0] + 1
          && s.prev[x].1 in edges && Other(s.prev[x].1, s.prev[x].0) == Some(x))
  }

  /** The far end of `e` from `x` is unusable or already reached, at most one hop further. */
  ghost predicate EdgeClosed(nodes: map<string, Node>, s: Search, x: string, e: Edge)
    requires x in s.dist
  {
    var o := Other(e, x);
    o.Some? && o.value in nodes ==> o.value in s.dist && s.dist[o.value] <= s.dist[x] + 1
  }

  ghost predicate Closed(nodes: map<string, Node>, edges: seq<Edge>, s: Search, x: string)
    requires x in s.dist
  {
    forall e :: e in edges ==> EdgeClosed(nodes, s, x, e)
  }

  /** The queue is ordered by hop count and spans at most two layers, `lo` and `lo + 1`; nothing is further. */
  ghost predicate Queued(s: Search, lo: nat) {
    && (forall x :: x in s.dist ==> s.dist[x] <= lo + 1)
    && (forall i :: 0 <= i < |s.queue| ==> s.queue[i] in s.dist && lo <= s.dist[s.queue[i]] <= lo + 1)
    && (forall i, j :: 0 <= i < j < |s.queue| ==>
          s.queue[i] != s.queue[j] && s.dist[s.queue[i]] <= s.dist[s.queue[j]])
  }

  ghost predicate Inv(nodes: map<string, Node>, edges: seq<Edge>, src: string, dst: string, hops: nat, s: Search) {
    && Tree(nodes, edges, src, s)
    && dst !in s.dist
    && (s.queue != [] ==> s.queue[0] in s.dist && Queued(s, s.dist[s.queue[0]]))
    && (forall x :: x in s.dist && x !in s.queue && s.dist[x] < hops ==> Closed(nodes, edges, s, x))
  }

  /** Inside one expansion of `cur`: the edges not in `todo` are closed for `cur`. */
  ghost predicate Expanding(nodes: map<string, Node>, edges: seq<Edge>, src: string, dst: string, hops: nat,
                            cur: string, todo: seq<Edge>, s: Search) {
    && Tree(nodes, edges, src, s)
    && dst !in s.dist
    && cur in s.dist && cur !in s.queue && Queued(s, s.dist[cur])
    && (forall x :: x in s.dist && x !in s.queue && x != cur && s.dist[x] < hops ==> Closed(nodes, edges, s, x))
    && (forall e :: e in edges && e !in todo ==> EdgeClosed(nodes, s, cur, e))
  }

  /** What is closed stays so when more nodes are reached. */
  lemma ClosedStays(nodes: map<string, Node>, edges: seq<Edge>, s: Search, u: Search, x: string)
    requires x in s.dist && Closed(nodes, edges, s, x)
    requires forall y :: y in s.dist ==> y in u.dist && u.dist[y] == s.dist[y]
    ensures Closed(nodes, edges, u, x)
  {
    forall e | e in edges ensures EdgeClosed(nodes, u, x, e) {
      assert EdgeClosed(nodes, s, x, e);
    }
  }

  lemma QueuedStays(s: Search, u: Search, cur: string, other: string)
    requires cur in s.dist && Queued(s, s.dist[cur]) && other !in s.dist
    requires u.dist == s.dist[other := s.dist[cur] + 1] && u.queue == s.queue + [other]
    ensures Queued(u, u.dist[cur])
  {
  }

  lemma StepKeepsExpanding(nodes: map<string, Node>, edges: seq<Edge>, src: string, dst: string, hops: nat,
                           cur: string, todo: seq<Edge>, s: Search, other: string)
    requires Expanding(nodes, edges, src, dst, hops, cur, todo, s)
    requires todo != [] && todo[0] in edges
    requires Other(todo[0], cur) == Some(other) && other in nodes && other !in s.dist && other != dst
    ensures var t := Reached(s, cur, s.dist[cur], todo[0], other);
            Expanding(nodes, edges, src, dst, hops, cur, todo[1..], t.(queue := t.queue + [other]))
  {
    var t := Reached(s, cur, s.dist[cur], todo[0], other);
    var u := t.(queue := t.queue + [other]);
    QueuedStays(s, u, cur, other);
    forall x | x in u.dist && x !in u.queue && x != cur && u.dist[x] < hops
      ensures Closed(nodes, edges, u, x)
    {
      assert other in u.queue && x in s.dist && x !in s.queue;
      ClosedStays(nodes, edges, s, u, x);
    }
    forall e | e in edges && e !in todo[1..] ensures EdgeClosed(nodes, u, cur, e) {
      if e != todo[0] {
        assert EdgeClosed(nodes, s, cur, e);
      }
    }
  }

  lemma {:induction false} ScanCorrect(nodes: map<string, Node>, edges: seq<Edge>, src: string, dst: string, hops: nat,
                                       cur: string, todo: seq<Edge>, s: Search)
    requires Expanding(nodes, edges, src, dst, hops, cur, todo, s)
    requires forall e :: e in todo ==> e in edges
    ensures var r := ScanEdges(nodes, todo, cur, s.dist[cur], dst, s);
            && (r.Continue? ==> Expanding(nodes, edges, src, dst, hops, cur, [], r.s) && r.s.dist[cur] == s.dist[cur])
            && (r.Found? ==> Tree(nodes, edges, src, r.s) && dst in r.s.dist && r.s.dist[dst] == s.dist[cur] + 1)
    decreases |todo|
  {
    if todo != [] {
      var o := Other(todo[0], cur);
      assert todo[0] in edges;
      if o.None? || o.value !in nodes || o.value in s.dist {
        assert EdgeClosed(nodes, s, cur, todo[0]);
        forall e | e in edges && e !in todo[1..] ensures EdgeClosed(nodes, s, cur, e) {
          if e != todo[0] {
            assert e !in todo;
          }
        }
        ScanCorrect(nodes, edges, src, dst, hops, cur, todo[1..], s);
      } else if o.value != dst {
        StepKeepsExpanding(nodes, edges, src, dst, hops, cur, todo, s, o.value);
        var t := Reached(s, cur, s.dist[cur], todo[0], o.value);
        ScanCorrect(nodes, edges, src, dst, hops, cur, todo[1..], t.(queue := t.queue + [o.value]));
      }
    }
  }

  /** All neighbours of nodes nearer than `k` have been reached, one hop further at most. */
  ghost predicate Settled(nodes: map<string, Node>, edges: seq<Edge>, s: Search, k: nat) {
    forall a, x :: a in s.dist && s.dist[a] < k && Adjacent(nodes, edges, a, x) ==>
      x in s.dist && s.dist[x] <= s.dist[a] + 1
  }

  /** Below the layer now being expanded, everything within reach has been reached. */
  lemma {:induction false} Covers(nodes: map<string, Node>, edges: seq<Edge>, src: string, s: Search, k: nat, x: string)
    requires src in s.dist && s.dist[src] == 0 && Settled(nodes, edges, s, k)
    requires Near(nodes, edges, src, x, k)
    ensures x in s.dist && s.dist[x] <= k
    decreases k
  {
    if k > 0 {
      if Near(nodes, edges, src, x, k - 1) {
        Covers(nodes, edges, src, s, k - 1, x);
      } else {
        var a :| Near(nodes, edges, src, a, k - 1) && Adjacent(nodes, edges, a, x);
        Covers(nodes, edges, src, s, k - 1, a);
      }
    }
  }

  lemma NeighbourReached(nodes: map<string, Node>, edges: seq<Edge>, src: string, dst: string, hops: nat,
                         s: Search, a: string, x: string)
    requires Inv(nodes, edges, src, dst, hops, s) && Adjacent(nodes, edges, a, x)
    requires a in s.dist && s.dist[a] < hops && (s.queue != [] ==> s.dist[a] < s.dist[s.queue[0]])
    ensures x in s.dist && s.dist[x] <= s.dist[a] + 1
  {
    forall i | 0 <= i < |s.queue| ensures s.queue[i] != a {
      assert i == 0 || s.dist[s.queue[0]] <= s.dist[s.queue[i]];
    }
    assert Closed(nodes, edges, s, a);
    var e :| e in edges && Other(e, a) == Some(x);
    assert EdgeClosed(nodes, s, a, e);
  }

  lemma QueuedFromFront(s: Search, lo: nat)
    requires Queued(s, lo) && s.queue != []
    ensures Queued(s, s.dist[s.queue[0]])
  {
  }

  lemma PopFront(s: Search)
    requires s.queue != [] && s.queue[0] in s.dist && Queued(s, s.dist[s.queue[0]])
    ensures Queued(s.(queue := s.queue[1..]), s.dist[s.queue[0]])
    ensures s.queue[0] !in s.queue[1..]
  {
  }

  /** `r` is right about `dst`: reached at its true distance, or further than `hops` away. */
  ghost predicate RightAnswer(nodes: map<string, Node>, edges: seq<Edge>, src: string, dst: string, hops: nat,
      r: Option<Search>) {
    match r
    case None => !Near(nodes, edges, src, dst, hops)
    case Some(s) =>
      Tree(nodes, edges, src, s) && dst in s.dist && 0 < s.dist[dst] <= hops &&
      !Near(nodes, edges, src, dst, s.dist[dst] - 1)
  }

  lemma {:induction false} SearchCorrect(nodes: map<string, Node>, edges: seq<Edge>, src: string, dst: string,
      hops: nat, s: Search)
    requires src in nodes && Inv(nodes, edges, src, dst, hops, s)
    ensures RightAnswer(nodes, edges, src, dst, hops, RunSearch(nodes, edges, dst, hops, s))
    decreases Work(nodes, s)
  {
    if s.queue == [] {
      NotNearer(nodes, edges, src, dst, hops, s, hops);
    } else {
      var d := s.dist[s.queue[0]];
      if d >= hops {
        SkipKeepsInv(nodes, edges, src, dst, hops, s);
        SearchCorrect(nodes, edges, src, dst, hops, s.(queue := s.queue[1..]));
      } else {
        ExpandCorrect(nodes, edges, src, dst, hops, s);
        var r := Expand(nodes, edges, dst, s);
        if r.Continue? {
          SearchCorrect(nodes, edges, src, dst, hops, r.s);
        }
      }
    }
  }

  lemma SkipKeepsInv(nodes: map<string, Node>, edges: seq<Edge>, src: string, dst: string, hops: nat, s: Search)
    requires Inv(nodes, edges, src, dst, hops, s) && s.queue != [] && s.dist[s.queue[0]] >= hops
    ensures Inv(nodes, edges, src, dst, hops, s.(queue := s.queue[1..]))
  {
    var rest := s.(queue := s.queue[1..]);
    PopFront(s);
    if rest.queue != [] {
      QueuedFromFront(rest, s.dist[s.queue[0]]);
    }
    forall x | x in rest.dist && x !in rest.queue && rest.dist[x] < hops ensures Closed(nodes, edges, rest, x) {
      assert x !in s.queue;
      assert Closed(nodes, edges, s, x);
      forall e | e in edges ensures EdgeClosed(nodes, rest, x, e) {
        assert EdgeClosed(nodes, s, x, e);
      }
    }
  }

  lemma ExpandCorrect(nodes: map<string, Node>, edges: seq<Edge>, src: string, dst: string, hops: nat, s: Search)
    requires src in nodes && Inv(nodes, edges, src, dst, hops, s) && s.queue != [] && s.dist[s.queue[0]] < hops
    ensures var r := Expand(nodes, edges, dst, s);
            (r.Continue? ==> Inv(nodes, edges, src, dst, hops, r.s)) &&
            (r.Found? ==> RightAnswer(nodes, edges, src, dst, hops, Some(r.s)))
  {
    var cur, rest := s.queue[0], s.(queue := s.queue[1..]);
    NotNearer(nodes, edges, src, dst, hops, s, s.dist[cur]);
    StartExpanding(nodes, edges, src, dst, hops, s);
    ScanCorrect(nodes, edges, src, dst, hops, cur, edges, rest);
    var r := Expand(nodes, edges, dst, s);
    if r.Continue? {
      FinishExpanding(nodes, edges, src, dst, hops, cur, r.s);
    }
  }

  lemma NotNearer(nodes: map<string, Node>, edges: seq<Edge>, src: string, dst: string, hops: nat, s: Search, k: nat)
    requires src in nodes && Inv(nodes, edges, src, dst, hops, s)
    requires k <= hops && (s.queue != [] ==> k <= s.dist[s.queue[0]])
    ensures !Near(nodes, edges, src, dst, k)
  {
    forall a, x | a in s.dist && s.dist[a] < k && Adjacent(nodes, edges, a, x)
      ensures x in s.dist && s.dist[x] <= s.dist[a] + 1
    {
      NeighbourReached(nodes, edges, src, dst, hops, s, a, x);
    }
    if Near(nodes, edges, src, dst, k) {
      Covers(nodes, edges, src, s, k, dst);
    }
  }

  lemma StartExpanding(nodes: map<string, Node>, edges: seq<Edge>, src: string, dst: string, hops: nat, s: Search)
    requires Inv(nodes, edges, src, dst, hops, s) && s.queue != []
    ensures Expanding(nodes, edges, src, dst, hops, s.queue[0], edges, s.(queue := s.queue[1..]))
  {
    var rest := s.(queue := s.queue[1..]);
    PopFront(s);
    forall x | x in rest.dist && x !in rest.queue && x != s.queue[0] && rest.dist[x] < hops
      ensures Closed(nodes, edges, rest, x)
    {
      assert x !in s.queue;
      assert Closed(nodes, edges, s, x);
      forall e | e in edges ensures EdgeClosed(nodes, rest, x, e) {
        assert EdgeClosed(nodes, s, x, e);
      }
    }
  }

  lemma FinishExpanding(nodes: map<string, Node>, edges: seq<Edge>, src: string, dst: string, hops: nat, cur: string,
      s: Search)
    requires Expanding(nodes, edges, src, dst, hops, cur, [], s)
    ensures Inv(nodes, edges, src, dst, hops, s)
  {
    if s.queue != [] {
      QueuedFromFront(s, s.dist[cur]);
    }
    forall e | e in edges ensures EdgeClosed(nodes, s, cur, e) {
      assert e !in [];
    }
  }

  /** A target that counts as reached from the outset is never found. */
  lemma {:induction false} ScanIgnoresReached(nodes: map<string, Node>, edges: seq<Edge>, cur: string, d: nat,
      dst: string, s: Search)
    requires dst in s.dist
    ensures var r := ScanEdges(nodes, edges, cur, d, dst, s);
            r.Continue? && dst in r.s.dist
    decreases |edges|
  {
    if edges != [] {
      var o := Other(edges[0], cur);
      if o.None? || o.value !in nodes || o.value in s.dist {
        ScanIgnoresReached(nodes, edges[1..], cur, d, dst, s);
      } else {
        var t := Reached(s, cur, d, edges[0], o.value);
        ScanIgnoresReached(nodes, edges[1..], cur, d, dst, t.(queue := t.queue + [o.value]));
      }
    }
  }

  lemma {:induction false} SearchIgnoresReached(nodes: map<string, Node>, edges: seq<Edge>, dst: string, hops: nat,
      s: Search)
    requires dst in s.dist
    ensures RunSearch(nodes, edges, dst, hops, s).None?
    decreases Work(nodes, s)
  {
    if s.queue != [] {
      if HopsTo(s, s.queue[0]) >= hops {
        SearchIgnoresReached(nodes, edges, dst, hops, s.(queue := s.queue[1..]));
      } else {
        ScanIgnoresReached(nodes, edges, s.queue[0], HopsTo(s, s.queue[0]), dst, s.(queue := s.queue[1..]));
        SearchIgnoresReached(nodes, edges, dst, hops, Expand(nodes, edges, dst, s).s);
      }
    }
  }

  // --- Walking back from the target -------------------------------------------

  /** The node ids and edges from `src` to `x` along the predecessors; never stuck, and ends at `src`. */
  function WalkBack(nodes: map<string, Node>, edges: seq<Edge>, src: string, s: Search, x: string): (seq<string>,
      seq<Edge>)
    requires Tree(nodes, edges, src, s) && x in s.dist
    decreases s.dist[x]
  {
    if x == src then ([src], [])
    else
      var (p, e) := s.prev[x];
      var (ids, es) := WalkBack(nodes, edges, src, s, p);
      (ids + [x], es + [e])
  }

  lemma {:induction false} WalkBackIsWalk(nodes: map<string, Node>, edges: seq<Edge>, src: string, s: Search, x: string)
    requires Tree(nodes, edges, src, s) && x in s.dist
    ensures var (ids, es) := WalkBack(nodes, edges, src, s, x);
            WalkBetween(nodes, edges, src, x, ids, es) && |es| == s.dist[x]
    decreases s.dist[x]
  {
    if x != src {
      var (p, e) := s.prev[x];
      var (ids, es) := WalkBack(nodes, edges, src, s, p);
      WalkBackIsWalk(nodes, edges, src, s, p);
      ExtendWalk(nodes, edges, ids, es, e, x);
    }
  }

  function NodesOf(nodes: map<string, Node>, ids: seq<string>): (r: seq<Node>)
    requires forall i :: 0 <= i < |ids| ==> ids[i] in nodes
  {
    seq(|ids|, i requires 0 <= i < |ids| => nodes[ids[i]])
  }

  /** The path recorded by the predecessors of `dst`. */
  function PathOf(nodes: map<string, Node>, edges: seq<Edge>, src: string, s: Search, dst: string): GraphPath
    requires Tree(nodes, edges, src, s) && dst in s.dist
  {
    WalkBackIsWalk(nodes, edges, src, s, dst);
    var (ids, es) := WalkBack(nodes, edges, src, s, dst);
    GraphPath(NodesOf(nodes, ids), es)
  }

  /** What a search from `src` guarantees, whatever the end points. */
  lemma SearchOutcome(nodes: map<string, Node>, edges: seq<Edge>, src: string, dst: string, hops: nat)
    requires src in nodes
    ensures var r := RunSearch(nodes, edges, dst, hops, Start(src));
            (r.Some? <==> src != dst && Near(nodes, edges, src, dst, hops)) &&
            (r.Some? ==> RightAnswer(nodes, edges, src, dst, hops, r))
  {
    if src == dst {
      SearchIgnoresReached(nodes, edges, dst, hops, Start(src));
    } else {
      assert Inv(nodes, edges, src, dst, hops, Start(src));
      SearchCorrect(nodes, edges, src, dst, hops, Start(src));
      var r := RunSearch(nodes, edges, dst, hops, Start(src));
      if r.Some? {
        WalkBackIsWalk(nodes, edges, src, r.value, dst);
        var (ids, es) := WalkBack(nodes, edges, src, r.value, dst);
        WalkToNear(nodes, edges, src, ids, es, hops);
      }
    }
  }

  /** The answer to a path query on what the caller sees: `nodes` and `edges` are the visible part. */
  function FindPath(nodes: map<string, Node>, edges: seq<Edge>, src: string, dst: string,
      maxHops: nat): Option<GraphPath> {
    if src !in nodes || dst !in nodes then None
    else
      SearchOutcome(nodes, edges, src, dst, Clamp(maxHops, 1, 6));
      match RunSearch(nodes, edges, dst, Clamp(maxHops, 1, 6), Start(src))
      case None => None
      case Some(s) => Some(PathOf(nodes, edges, src, s, dst))
  }

  /** A path is found exactly when two different visible nodes are joined by a short enough walk. */
  lemma PathFoundIff(nodes: map<string, Node>, edges: seq<Edge>, src: string, dst: string, maxHops: nat)
    ensures FindPath(nodes, edges, src, dst, maxHops).Some? <==>
              src != dst && src in nodes && dst in nodes && Within(nodes, edges, src, dst, Clamp(maxHops, 1, 6))
  {
    if src in nodes {
      SearchOutcome(nodes, edges, src, dst, Clamp(maxHops, 1, 6));
      NearIffWalk(nodes, edges, src, dst, Clamp(maxHops, 1, 6));
    }
  }

  lemma NoShorterWalk(nodes: map<string, Node>, edges: seq<Edge>, src: string, dst: string, n: nat, ids: seq<string>,
      es: seq<Edge>)
    requires n > 0 && !Near(nodes, edges, src, dst, n - 1) && WalkBetween(nodes, edges, src, dst, ids, es)
    ensures |es| >= n
  {
    if |es| < n {
      WalkToNear(nodes, edges, src, ids, es, n - 1);
      assert false;
    }
  }

  lemma NoneShorter(nodes: map<string, Node>, edges: seq<Edge>, src: string, dst: string, n: nat)
    requires n > 0 && !Near(nodes, edges, src, dst, n - 1)
    ensures forall ids, es :: WalkBetween(nodes, edges, src, dst, ids, es) ==> |es| >= n
  {
    forall ids, es | WalkBetween(nodes, edges, src, dst, ids, es) ensures |es| >= n {
      NoShorterWalk(nodes, edges, src, dst, n, ids, es);
    }
  }

  /** What is returned is a walk through visible nodes and edges, and no walk is shorter. */
  lemma PathIsShortest(nodes: map<string, Node>, edges: seq<Edge>, src: string, dst: string, maxHops: nat)
    returns (ids: seq<string>)
    requires FindPath(nodes, edges, src, dst, maxHops).Some?
    ensures var p := FindPath(nodes, edges, src, dst, maxHops).value;
            1 <= |p.edges| <= Clamp(maxHops, 1, 6) &&
            WalkBetween(nodes, edges, src, dst, ids, p.edges) && p.nodes == NodesOf(nodes, ids) &&
            forall ids', es' :: WalkBetween(nodes, edges, src, dst, ids', es') ==> |es'| >= |p.edges|
  {
    SearchOutcome(nodes, edges, src, dst, Clamp(maxHops, 1, 6));
    var s := RunSearch(nodes, edges, dst, Clamp(maxHops, 1, 6), Start(src)).value;
    WalkBackIsWalk(nodes, edges, src, s, dst);
    ids := WalkBack(nodes, edges, src, s, dst).0;
    NoneShorter(nodes, edges, src, dst, s.dist[dst]);
  }
}
