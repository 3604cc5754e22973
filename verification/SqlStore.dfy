/** The edge table and the state query of the SQL store, against the store in memory. */
module SqlStore {
  import opened EventMapping
  import opened GraphModel
  import opened GraphOps
  import opened Projection

  /** Primary key of the edge table: tenant and edge id. */
  type RowKey = (string, string)

  type Rows = map<RowKey, Edge>

  function KeyOf(e: Edge): RowKey {
    (e.tenantId, e.edgeId)
  }

  /** `ON CONFLICT DO UPDATE`: event, type and ends stay those of the row, everything else is overwritten. */
  function Overwrite(row: Edge, e: Edge): Edge {
    e.(eventId := row.eventId, edgeType := row.edgeType, fromId := row.fromId, toId := row.toId)
  }

  function PutRow(m: Rows, e: Edge): Rows {
    m[KeyOf(e) := if KeyOf(e) in m then Overwrite(m[KeyOf(e)], e) else e]
  }

  /** A sequence of upserts, the last element last. */
  function PutRows(m: Rows, es: seq<Edge>): Rows {
    if es == [] then m else PutRow(PutRows(m, es[..|es| - 1]), es[|es| - 1])
  }

  /** Type and ends, which decide where an edge leads. */
  function Course(e: Edge): (string, string, string) {
    (e.edgeType, e.fromId, e.toId)
  }

  predicate UpToEvent(a: Edge, b: Edge) {
    a.(eventId := b.eventId) == b
  }

  // --- First and last writes --------------------------------------------------------

  function Firsts(es: seq<Edge>): Rows {
    if es == [] then map[]
    else
      var m, e := Firsts(es[..|es| - 1]), es[|es| - 1];
      if KeyOf(e) in m then m else m[KeyOf(e) := e]
  }

  function Lasts(es: seq<Edge>): Rows {
    if es == [] then map[] else Lasts(es[..|es| - 1])[KeyOf(es[|es| - 1]) := es[|es| - 1]]
  }

  lemma {:induction false} FirstsAndLasts(es: seq<Edge>)
    ensures Firsts(es).Keys == Lasts(es).Keys
    ensures forall k :: k in Firsts(es) ==> Firsts(es)[k] in es && KeyOf(Firsts(es)[k]) == k
    ensures forall k :: k in Lasts(es) ==> Lasts(es)[k] in es && KeyOf(Lasts(es)[k]) == k
    ensures forall e :: e in es ==> KeyOf(e) in Lasts(es)
  {
    if es != [] {
      FirstsAndLasts(es[..|es| - 1]);
      assert es == es[..|es| - 1] + [es[|es| - 1]];
    }
  }

  /** A row is made of the first and the last write of its key. */
  lemma {:induction false} RowsAre(es: seq<Edge>)
    ensures var rows := PutRows(map[], es);
            rows.Keys == Firsts(es).Keys == Lasts(es).Keys &&
            forall k :: k in rows ==> rows[k] == Overwrite(Firsts(es)[k], Lasts(es)[k])
  {
    FirstsAndLasts(es);
    if es != [] {
      RowsAre(es[..|es| - 1]);
      FirstsAndLasts(es[..|es| - 1]);
    }
  }

  // --- The lists in memory ----------------------------------------------------------

  lemma {:induction false} PutEdgesAppend(m: map<string, seq<Edge>>, a: seq<Edge>, b: seq<Edge>)
    ensures PutEdges(m, a + b) == PutEdges(PutEdges(m, a), b)
    decreases |a|
  {
    if a == [] {
      assert a + b == b;
    } else {
      var m' := m[a[0].tenantId := PutEdge(ListFor(m, a[0].tenantId), a[0])];
      assert (a + b)[1..] == a[1..] + b;
      PutEdgesAppend(m', a[1..], b);
    }
  }

  predicate LastWrite(es: seq<Edge>, t: string, e: Edge) {
    e.tenantId == t && KeyOf(e) in Lasts(es) && Lasts(es)[KeyOf(e)] == e
  }

  /** In memory an edge is there exactly when it is the last write of its key. */
  lemma {:induction false} ListsAre(es: seq<Edge>)
    ensures forall t :: t in PutEdges(map[], es) ==> EdgeListOk(t, PutEdges(map[], es)[t])
    ensures forall t, e :: e in ListFor(PutEdges(map[], es), t) <==> LastWrite(es, t, e)
  {
    PutEdgesKeepsLists(map[], es);
    if es != [] {
      var init, x := es[..|es| - 1], es[|es| - 1];
      ListsAre(init);
      assert es == init + [x];
      PutEdgesAppend(map[], init, [x]);
      var m := PutEdges(map[], init);
      PutEdgeOk(x.tenantId, ListFor(m, x.tenantId), x);
      OnePutEdge(m, x);
      forall t, e ensures e in ListFor(PutEdges(map[], es), t) <==> LastWrite(es, t, e) {
        OneMoreWrite(init, x, m, t, e);
      }
    }
  }

  lemma OneMoreWrite(init: seq<Edge>, x: Edge, m: map<string, seq<Edge>>, t: string, e: Edge)
    requires e in ListFor(m, t) <==> LastWrite(init, t, e)
    requires forall y :: y in PutEdge(ListFor(m, x.tenantId), x) <==>
        y == x || (y in ListFor(m, x.tenantId) && y.edgeId != x.edgeId)
    ensures e in ListFor(m[x.tenantId := PutEdge(ListFor(m, x.tenantId), x)], t) <==> LastWrite(init + [x], t, e)
  {
    assert (init + [x])[..|init|] == init;
  }

  lemma OnePutEdge(m: map<string, seq<Edge>>, x: Edge)
    ensures PutEdges(m, [x]) == m[x.tenantId := PutEdge(ListFor(m, x.tenantId), x)]
  {
    assert [x][1..] == [];
  }

  // --- When the two stores hold the same edges --------------------------------------

  /** An edge of the store in memory and the row under its key. */
  ghost predicate Matched(es: seq<Edge>, k: RowKey, e: Edge) {
    e in ListFor(PutEdges(map[], es), k.0) && e.edgeId == k.1 && k in PutRows(map[], es) &&
        UpToEvent(e, PutRows(map[], es)[k])
  }

  /** Memory and table hold the same edges of every tenant, up to the event they name. */
  ghost predicate SameEdges(es: seq<Edge>) {
    (forall t, e :: e in ListFor(PutEdges(map[], es), t) ==> Matched(es, (t, e.edgeId), e)) &&
    (forall k :: k in PutRows(map[], es) ==> exists e :: Matched(es, k, e))
  }

  /** The first and the last write of the id agree on type and ends. */
  ghost predicate KeptCourse(es: seq<Edge>, k: RowKey) {
    k in Firsts(es) && k in Lasts(es) ==> Course(Firsts(es)[k]) == Course(Lasts(es)[k])
  }

  lemma OverwriteIff(a: Edge, b: Edge)
    ensures UpToEvent(b, Overwrite(a, b)) <==> Course(a) == Course(b)
  {
  }

  lemma MatchedIff(es: seq<Edge>, k: RowKey)
    requires k in Lasts(es)
    ensures forall e :: e in ListFor(PutEdges(map[], es), k.0) && e.edgeId == k.1 <==> e == Lasts(es)[k]
    ensures forall e :: Matched(es, k, e) <==> e == Lasts(es)[k] && KeptCourse(es, k)
  {
    ListsAre(es);
    RowsAre(es);
    FirstsAndLasts(es);
    OverwriteIff(Firsts(es)[k], Lasts(es)[k]);
    forall e ensures e in ListFor(PutEdges(map[], es), k.0) && e.edgeId == k.1 <==> e == Lasts(es)[k] {
      assert e in ListFor(PutEdges(map[], es), k.0) <==> LastWrite(es, k.0, e);
    }
  }

  /**
   * After a sequence of writes they do exactly when the first and the last write of every id agree on type and ends.
   */
  lemma SameEdgesIff(es: seq<Edge>)
    ensures SameEdges(es) <==> forall k :: KeptCourse(es, k)
  {
    RowsAre(es);
    ListsAre(es);
    forall k | k in Lasts(es) ensures KeptCourse(es, k) <==> exists e :: Matched(es, k, e) {
      MatchedIff(es, k);
      assert KeptCourse(es, k) ==> Matched(es, k, Lasts(es)[k]);
    }
    if forall k :: KeptCourse(es, k) {
      forall t, e | e in ListFor(PutEdges(map[], es), t) ensures Matched(es, (t, e.edgeId), e) {
        assert LastWrite(es, t, e);
        MatchedIff(es, (t, e.edgeId));
      }
    }
  }

  /** No two writes share an id but not type and ends. */
  ghost predicate OneCourse(es: seq<Edge>) {
    forall a, b :: a in es && b in es && KeyOf(a) == KeyOf(b) ==> Course(a) == Course(b)
  }

  lemma OneCourseSame(es: seq<Edge>, n: nat)
    requires OneCourse(es) && n <= |es|
    ensures SameEdges(es[..n])
  {
    FirstsAndLasts(es[..n]);
    forall k ensures KeptCourse(es[..n], k) {
      if k in Firsts(es[..n]) && k in Lasts(es[..n]) {
        assert Firsts(es[..n])[k] in es && Lasts(es[..n])[k] in es;
      }
    }
    SameEdgesIff(es[..n]);
  }

  /** A write that leaves the course of the first one under its id sets the stores apart. */
  lemma LeavingCourseDiffers(es: seq<Edge>, i: nat)
    requires i < |es| && KeyOf(es[i]) in Firsts(es) && Course(Firsts(es)[KeyOf(es[i])]) != Course(es[i])
    ensures !SameEdges(es[..i + 1])
  {
    JustWritten(es, i);
    FirstStays(es, i + 1);
    SameEdgesIff(es[..i + 1]);
    assert !KeptCourse(es[..i + 1], KeyOf(es[i]));
  }

  /** They do after every single write exactly when no two edges written share an id with different type or ends. */
  lemma AlwaysSameEdgesIff(es: seq<Edge>)
    ensures (forall n :: 0 <= n <= |es| ==> SameEdges(es[..n])) <==> OneCourse(es)
  {
    if OneCourse(es) {
      forall n | 0 <= n <= |es| ensures SameEdges(es[..n]) {
        OneCourseSame(es, n);
      }
    } else {
      var a, b :| a in es && b in es && KeyOf(a) == KeyOf(b) && Course(a) != Course(b);
      FirstsAndLasts(es);
      var e := if Course(Firsts(es)[KeyOf(a)]) != Course(a) then a else b;
      var i :| 0 <= i < |es| && es[i] == e;
      LeavingCourseDiffers(es, i);
    }
  }

  lemma {:induction false} FirstStays(es: seq<Edge>, n: nat)
    requires n <= |es|
    ensures forall k :: k in Firsts(es[..n]) ==> k in Firsts(es) && Firsts(es)[k] == Firsts(es[..n])[k]
  {
    if n < |es| {
      FirstStays(es[..|es| - 1], n);
      assert es[..|es| - 1][..n] == es[..n];
    } else {
      assert es[..n] == es;
    }
  }

  lemma JustWritten(es: seq<Edge>, i: nat)
    requires i < |es|
    ensures KeyOf(es[i]) in Lasts(es[..i + 1]) && Lasts(es[..i + 1])[KeyOf(es[i])] == es[i]
    ensures KeyOf(es[i]) in Firsts(es[..i + 1])
  {
    assert es[..i + 1][..i] == es[..i];
    FirstsAndLasts(es[..i + 1]);
  }

  // --- Runs -------------------------------------------------------------------------

  /** The edges a run writes, in order: those of every input it has not seen before. */
  function Written(rules: Rules, inputs: seq<Input>): seq<Edge> {
    if inputs == [] then []
    else
      var init, i := inputs[..|inputs| - 1], inputs[|inputs| - 1];
      Written(rules, init) +
      if i.Rev? || IdOf(i) in Run(rules, EmptySystem, init).graph.applied then [] else MapEvent(rules, i.event).edges
  }

  lemma {:induction false} RunWrites(rules: Rules, inputs: seq<Input>)
    ensures Run(rules, EmptySystem, inputs).graph.edges == PutEdges(map[], Written(rules, inputs))
  {
    if inputs != [] {
      var init, i := inputs[..|inputs| - 1], inputs[|inputs| - 1];
      RunWrites(rules, init);
      if i.Ev? && IdOf(i) !in Run(rules, EmptySystem, init).graph.applied {
        PutEdgesAppend(map[], Written(rules, init), MapEvent(rules, i.event).edges);
      } else {
        assert Written(rules, init) + [] == Written(rules, init);
      }
    }
  }

  /** The edge table after the same run. */
  function Table(rules: Rules, inputs: seq<Input>): Rows {
    PutRows(map[], Written(rules, inputs))
  }

  /** The ids of stable edges join their parts with a bar, so two memberships can share one and go separate ways. */
  lemma StableIdsCollide(one: Event, two: Event, props: Json)
    requires one.tenantId == two.tenantId
    ensures var a := StableEdge(one, "MEMBER_OF", "person:u|team:v", "team:w", props);
            var b := StableEdge(two, "MEMBER_OF", "person:u", "team:v|team:w", props);
            KeyOf(a) == KeyOf(b) && !OneCourse([a, b]) && !SameEdges([a, b])
  {
    var a := StableEdge(one, "MEMBER_OF", "person:u|team:v", "team:w", props);
    var b := StableEdge(two, "MEMBER_OF", "person:u", "team:v|team:w", props);
    SameText(one.tenantId);
    TwoCourses(a, b);
  }

  function TeamOf(ev: Event): string {
    TextOr(ev.attributes, ["team", "group_name", "group_id", "channel", "org"], "")
  }

  lemma TeamEdge(rules: Rules, ev: Event)
    requires RouteOf(ev) == Team
    ensures |MapEvent(rules, ev).edges| == 1
    ensures var e := MapEvent(rules, ev).edges[0];
            e.tenantId == ev.tenantId && e.edgeId == StableEdgeId(ev.tenantId, "MEMBER_OF", PersonNode(ev).nodeId,
                "team:" + TeamOf(ev)) &&
            e.fromId == PersonNode(ev).nodeId
  {
  }

  /** Two events can do that to a run: user ids and team names may contain the bar. */
  lemma MembershipsCollide(rules: Rules, one: Event, two: Event)
    requires one.tenantId == two.tenantId && one.eventId != two.eventId && RouteOf(one) == Team && RouteOf(two) == Team
    requires PersonNode(one).nodeId == "person:u|team:v" && TeamOf(one) == "w"
    requires PersonNode(two).nodeId == "person:u" && TeamOf(two) == "v|team:w"
    ensures !SameEdges(Written(rules, [Ev(one), Ev(two)]))
  {
    TeamEdge(rules, one);
    TeamEdge(rules, two);
    SameText(one.tenantId);
    var a, b := MapEvent(rules, one).edges[0], MapEvent(rules, two).edges[0];
    assert "team:" + "w" == "team:w" && "team:" + "v|team:w" == "team:v|team:w";
    TwoWritten(rules, one, two);
    assert Written(rules, [Ev(one), Ev(two)]) == [a, b];
    TwoCourses(a, b);
  }

  lemma TwoWritten(rules: Rules, one: Event, two: Event)
    requires IdOf(Ev(one)) != IdOf(Ev(two))
    ensures Written(rules, [Ev(one), Ev(two)]) == MapEvent(rules, one).edges + MapEvent(rules, two).edges
  {
    OneWritten(rules, one);
    assert [Ev(one), Ev(two)][..1] == [Ev(one)];
    AppliedIds(rules, [Ev(one)], IdOf(Ev(two)));
  }

  lemma OneWritten(rules: Rules, one: Event)
    ensures Written(rules, [Ev(one)]) == MapEvent(rules, one).edges
  {
    var none: seq<Input> := [];
    assert [Ev(one)][..0] == none;
    assert Written(rules, none) == [];
    assert [] + MapEvent(rules, one).edges == MapEvent(rules, one).edges;
  }

  lemma SameText(tenant: string)
    ensures StableEdgeId(tenant, "MEMBER_OF", "person:u|team:v", "team:w") == StableEdgeId(tenant, "MEMBER_OF",
        "person:u", "team:v|team:w")
  {
    var start := "es_" + tenant + "|" + "MEMBER_OF" + "|";
    assert start + "person:u|team:v" + "|" + "team:w" == start + ("person:u|team:v" + "|" + "team:w");
    assert start + "person:u" + "|" + "team:v|team:w" == start + ("person:u" + "|" + "team:v|team:w");
    assert "person:u|team:v" + "|" + "team:w" == "person:u" + "|" + "team:v|team:w";
  }

  lemma TwoCourses(a: Edge, b: Edge)
    requires KeyOf(a) == KeyOf(b) && |a.fromId| != |b.fromId|
    ensures !OneCourse([a, b]) && !SameEdges([a, b])
  {
    assert [a, b][0] == a && [a, b][1] == b && [a, b][..1] == [a] && [a, b][..2] == [a, b];
    assert a in [a, b] && b in [a, b];
    JustWritten([a, b], 0);
    FirstStays([a, b], 1);
    FirstsAndLasts([a]);
    LeavingCourseDiffers([a, b], 1);
  }

  // --- States -----------------------------------------------------------------------

  /** What the state query of the SQL store answers on the same graph: it asks for the node first. */
  function RowState(g: Graph, ctx: QueryContext, node: string, key: string): Option<EntityState> {
    if node !in ViewOf(g, ctx).nodes then None else AllowedState(g, ctx, node, key)
  }

  /** Nobody may see this state, or everybody who may can also see its node. */
  ghost predicate NodeAsOpen(g: Graph, k: (string, string, string))
    requires k in g.states
  {
    var s, at := g.states[k], (k.0, k.1);
    k.0 == "" || (s.isPrivate && s.allowedGroups == []) ||
    (at in g.nodes && (g.nodes[at].isPrivate ==> s.isPrivate && forall x :: x in s.allowedGroups ==>
        x in g.nodes[at].allowedGroups))
  }

  ghost predicate AnswersAgree(g: Graph, ctx: QueryContext, node: string, key: string) {
    RowState(g, ctx, node, key) == AllowedState(g, ctx, node, key)
  }

  lemma OpenNodeAgrees(g: Graph, ctx: QueryContext, node: string, key: string)
    requires WellFormed(g) && ((ctx.tenantId, node, key) in g.states ==> NodeAsOpen(g, (ctx.tenantId, node, key)))
    ensures AnswersAgree(g, ctx, node, key)
  {
    var k, at := (ctx.tenantId, node, key), (ctx.tenantId, node);
    if k in g.states && AclAllows(ctx, g.states[k].isPrivate, g.states[k].allowedGroups) {
      assert at in g.nodes && NodeKey(g.nodes[at]) == at && VisibleNode(ctx, g.nodes[at]);
      assert node in ViewOf(g, ctx).nodes;
    }
  }

  /** Somebody who may see the state and not its node. */
  lemma SomebodyShutOut(g: Graph, k: (string, string, string)) returns (ctx: QueryContext)
    requires WellFormed(g) && k in g.states && !NodeAsOpen(g, k)
    ensures !AnswersAgree(g, ctx, k.1, k.2)
  {
    var s, at := g.states[k], (k.0, k.1);
    var groups := if s.isPrivate then [s.allowedGroups[0]] else [];
    if s.isPrivate && at in g.nodes && g.nodes[at].isPrivate {
      var x :| x in s.allowedGroups && x !in g.nodes[at].allowedGroups;
      groups := [x];
    }
    ctx := QueryContext(k.0, "", groups);
    assert s.isPrivate ==> groups[0] in s.allowedGroups && groups[0] in groups;
    assert k == (ctx.tenantId, k.1, k.2) && AllowedState(g, ctx, k.1, k.2) == Some(s);
    assert k.1 !in ViewOf(g, ctx).nodes;
  }

  /**
   * Every caller gets the same states from both stores exactly when every state's node is as open as the state itself.
   */
  lemma StateQueriesAgreeIff(g: Graph)
    requires WellFormed(g)
    ensures (forall ctx, node, key :: AnswersAgree(g, ctx, node, key)) <==> forall k :: k in g.states ==>
        NodeAsOpen(g, k)
  {
    if k :| k in g.states && !NodeAsOpen(g, k) {
      var ctx := SomebodyShutOut(g, k);
    } else {
      forall ctx, node, key ensures AnswersAgree(g, ctx, node, key) {
        OpenNodeAgrees(g, ctx, node, key);
      }
    }
  }
}
