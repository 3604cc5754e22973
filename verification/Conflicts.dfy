/** Conflicts between claimed intents and the work they are about, found through an index. */
module Conflicts {
  import opened GraphModel
  import opened Signals
  import opened Sorting
  import Text

  datatype Kind = ShipVsFreeze | DualOwners | DualBlocks | OpenBlocker | MergeFriction | StaleReview | CiBlocked

  datatype Severity = High | Medium | Low

  /** The parts a conflict id is put together from; the tenant is the same in all of them. */
  datatype CardId =
    | Owners(work: string)
    | ShipFreeze(work: string)
    | Mutual(from: string, to: string)
    | Blocked(intent: string)
    | BlocksShip(from: string, to: string)
    | Friction(work: string)
    | Stale(work: string)
    | Ci(work: string)

  datatype Card = Card(
    id: CardId, kind: Kind, severity: Severity, nodeIds: seq<string>, owners: set<string>, intentTypes: seq<string>,
    evidence: seq<string>, isDemo: bool)

  /** What a caller sees at one moment; `parse` reads date properties. */
  datatype Scene = Scene(tenant: string, nodes: seq<Node>, edges: seq<Edge>, asOf: int, parse: string -> Option<int>)

  // --- Reference definition ---------------------------------------------------------

  predicate IsAbout(d: Scene, e: Edge) {
    ActiveEdge(e, d.asOf) && Text.EqIgnoreCase(e.edgeType, "ABOUT")
  }

  predicate IsBlock(d: Scene, e: Edge) {
    ActiveEdge(e, d.asOf) && Text.EqIgnoreCase(e.edgeType, "BLOCKS")
  }

  predicate Links(d: Scene, e: Edge, n: Node, work: string) {
    IsAbout(d, e) && e.fromId == n.nodeId && e.toId == work
  }

  ghost predicate ByEdge(d: Scene, edges: seq<Edge>, n: Node, work: string) {
    exists e :: e in edges && Links(d, e, n, work)
  }

  /** `n` is an intent about `work`, by an edge or by its own property. */
  ghost predicate Claims(d: Scene, n: Node, work: string) {
    n in d.nodes && IsIntent(n) && (ByEdge(d, d.edges, n, work) || AboutOf(n) == Some(work))
  }

  ghost predicate Claimed(d: Scene, work: string, t: string) {
    exists n :: Claims(d, n, work) && IntentTypeOf(n) == t
  }

  ghost predicate OwnedBy(d: Scene, work: string, owner: string) {
    exists n :: Claims(d, n, work) && OwnerOf(n) == Some(owner)
  }

  ghost predicate SeveralOwners(d: Scene, work: string) {
    exists a, b :: OwnedBy(d, work, a) && OwnedBy(d, work, b) && a != b
  }

  ghost predicate Contradictory(d: Scene, work: string) {
    Claimed(d, work, "SHIP") && Claimed(d, work, "FREEZE")
  }

  ghost predicate AllClaimsDemo(d: Scene, work: string) {
    (exists n :: Claims(d, n, work)) && forall n :: Claims(d, n, work) ==> NodeIsDemo(n)
  }

  ghost predicate NodeWith(d: Scene, n: Node, id: string) {
    n in d.nodes && n.nodeId == id
  }

  /** A node whose friction is looked at: work by its type or id, or something an intent is about. */
  ghost predicate WorkNode(d: Scene, n: Node, id: string) {
    NodeWith(d, n, id) && (LooksLikeWork(n) || exists i :: Claims(d, i, id))
  }

  ghost predicate BlockAt(d: Scene, k: int, from: string, to: string) {
    0 <= k < |d.edges| && IsBlock(d, d.edges[k]) && d.edges[k].fromId == from && d.edges[k].toId == to
  }

  /** The conflicts there are, said without the index. */
  ghost predicate IsConflict(d: Scene, id: CardId) {
    match id
    case Owners(w) => SeveralOwners(d, w)
    case ShipFreeze(w) => !SeveralOwners(d, w) && Contradictory(d, w)
    case Mutual(x, y) => exists j, k :: 0 <= j < k && BlockAt(d, j, x, y) && BlockAt(d, k, y, x)
    case Blocked(i) => exists n :: NodeWith(d, n, i) && IsIntent(n) && IntentTypeOf(n) == "BLOCKED"
    case BlocksShip(x, y) => Claimed(d, y, "SHIP") && exists k :: BlockAt(d, k, x, y)
    case Friction(w) => exists n :: WorkNode(d, n, w) && Signals.MergeFriction(n).Some?
    case Stale(w) => exists n :: WorkNode(d, n, w) && Signals.StaleReview(n, d.asOf, d.parse).Some?
    case Ci(w) => Claimed(d, w, "SHIP") && exists n :: NodeWith(d, n, w) && CiFailure(n).Some?
  }

  /** The nodes of a card are the work item and the intents about it. */
  ghost predicate ShowsClaims(d: Scene, c: Card, work: string) {
    |c.nodeIds| > 0 && c.nodeIds[0] == work &&
    (forall x :: x in c.nodeIds[1..] <==> exists n :: Claims(d, n, work) && n.nodeId == x) &&
    (forall o :: o in c.owners <==> OwnedBy(d, work, o))
  }

  /** The claimed types, each once. */
  ghost predicate ShowsTypes(d: Scene, c: Card, work: string) {
    (forall t :: t in c.intentTypes <==> t != "" && Claimed(d, work, t)) && NoRepeats(c.intentTypes)
  }

  /** Demo intents and others are about the same work. */
  ghost predicate MixedClaims(d: Scene, work: string) {
    (exists n :: Claims(d, n, work) && NodeIsDemo(n)) && exists n :: Claims(d, n, work) && !NodeIsDemo(n)
  }

  ghost function MixedNote(d: Scene, work: string): seq<string> {
    if MixedClaims(d, work) then ["includes_seed_intent"] else []
  }

  /** The names of the intents about `work`, in some order. */
  ghost predicate NamesClaims(d: Scene, names: seq<string>, work: string) {
    forall x :: x in names <==> exists n :: Claims(d, n, work) && n.displayName == x
  }

  ghost predicate ShowsNames(d: Scene, c: Card, work: string) {
    exists names :: NamesClaims(d, names, work) && c.evidence == names + MixedNote(d, work)
  }

  /** The evidence of a card is taken from a node of this id that shows the friction. */
  ghost predicate ShowsSignal(d: Scene, c: Card, work: string, signal: Node -> Option<seq<string>>) {
    exists n :: NodeWith(d, n, work) && signal(n).Some? && c.evidence == signal(n).value + MixedNote(d, work)
  }

  ghost predicate ShowsBlock(d: Scene, c: Card, k: int, from: string, to: string) {
    BlockAt(d, k, from, to) && c.evidence == [d.edges[k].edgeId] + MixedNote(d, to)
  }

  ghost predicate ShowsBlocks(d: Scene, c: Card, j: int, k: int, x: string, y: string) {
    j < k && BlockAt(d, j, x, y) && BlockAt(d, k, y, x) && c.evidence == [d.edges[j].edgeId, d.edges[k].edgeId]
  }

  function FrictionSignal(): Node -> Option<seq<string>> {
    n => Signals.MergeFriction(n)
  }

  function StaleSignal(d: Scene): Node -> Option<seq<string>> {
    n => Signals.StaleReview(n, d.asOf, d.parse)
  }

  function CiSignal(): Node -> Option<seq<string>> {
    n => CiFailure(n)
  }

  /** What the card of a conflict gives as evidence. */
  ghost predicate HasEvidence(d: Scene, c: Card) {
    match c.id
    case Owners(w) => ShowsNames(d, c, w)
    case ShipFreeze(w) => ShowsNames(d, c, w)
    case Mutual(x, y) => exists j, k :: ShowsBlocks(d, c, j, k, x, y)
    case Blocked(i) => exists n ::
        NodeWith(d, n, i) && IsIntent(n) && IntentTypeOf(n) == "BLOCKED" && c.evidence == EvidenceTexts(n)
    case BlocksShip(x, y) => exists k :: ShowsBlock(d, c, k, x, y)
    case Friction(w) => ShowsSignal(d, c, w, FrictionSignal())
    case Stale(w) => ShowsSignal(d, c, w, StaleSignal(d))
    case Ci(w) => ShowsSignal(d, c, w, CiSignal())
  }

  ghost predicate Describes(d: Scene, c: Card) {
    SaysWhat(d, c) && HasEvidence(d, c)
  }

  /** What the card of a conflict says. */
  ghost predicate SaysWhat(d: Scene, c: Card) {
    match c.id
    case Owners(w) =>
      (c.kind, c.severity) == (if Contradictory(d, w) then (ShipVsFreeze, High) else (DualOwners, Medium)) &&
      ShowsClaims(d, c, w) && ShowsTypes(d, c, w) && (c.isDemo <==> AllClaimsDemo(d, w))
    case ShipFreeze(w) =>
      c.kind == ShipVsFreeze && c.severity == High &&
      ShowsClaims(d, c, w) && ShowsTypes(d, c, w) && (c.isDemo <==> AllClaimsDemo(d, w))
    case Mutual(x, y) =>
      c.kind == DualBlocks && c.severity == High && c.nodeIds == [x, y] && c.owners == {} &&
          c.intentTypes == ["BLOCKED"] &&
      (c.isDemo <==> AllEndsDemo(d, x, y))
    case Blocked(i) =>
      c.kind == OpenBlocker && c.severity == Medium && c.intentTypes == ["BLOCKED"] &&
      exists n :: NodeWith(d, n, i) && IsIntent(n) && ShowsIntent(c, n)
    case BlocksShip(x, y) =>
      c.kind == DualBlocks && c.severity == High && c.nodeIds == [x, y] && c.owners == {} &&
          c.intentTypes == ["SHIP", "BLOCKED"] &&
      (c.isDemo <==> AllClaimsDemo(d, y))
    case Friction(w) =>
      c.kind == MergeFriction && c.severity == High && ShowsClaims(d, c, w) && ShowsTypes(d, c, w) && ShowsDemo(d, c, w)
    case Stale(w) =>
      c.kind == StaleReview && c.severity == Medium && ShowsClaims(d, c, w) && ShowsTypes(d, c, w) && ShowsDemo(d, c, w)
    case Ci(w) =>
      c.kind == CiBlocked && c.severity == High && ShowsClaims(d, c, w) && c.intentTypes == ["SHIP"] &&
      (c.isDemo <==> AllClaimsDemo(d, w))
  }

  /** The intents about either end of a mutual block. */
  ghost predicate AllEndsDemo(d: Scene, x: string, y: string) {
    (exists n :: Claims(d, n, x) || Claims(d, n, y)) && forall n :: Claims(d, n, x) || Claims(d, n, y) ==> NodeIsDemo(n)
  }

  ghost predicate ShowsIntent(c: Card, n: Node) {
    (c.isDemo <==> NodeIsDemo(n)) && (forall o :: o in c.owners <==> OwnerOf(n) == Some(o)) &&
    forall x :: x in c.nodeIds <==> x != "" && (x == n.nodeId || AboutOf(n) == Some(x))
  }

  /** Without any claim, the work item itself decides. */
  ghost predicate ShowsDemo(d: Scene, c: Card, work: string) {
    c.isDemo <==>
      (AllClaimsDemo(d, work) || ((forall n :: !Claims(d, n, work)) && exists n ::
          NodeWith(d, n, work) && NodeIsDemo(n)))
  }

  ghost predicate DistinctNodes(nodes: seq<Node>) {
    forall i, j :: 0 <= i < j < |nodes| ==> nodes[i].nodeId != nodes[j].nodeId
  }

  // --- The index --------------------------------------------------------------------

  type Index = map<string, seq<Node>>

  function ListFor(about: Index, work: string): seq<Node> {
    if work in about then about[work] else []
  }

  /** The index lists, under every work item, exactly the intents about it. */
  ghost predicate Indexes(d: Scene, about: Index) {
    (forall w :: w in about ==> about[w] != []) && forall w, n :: n in ListFor(about, w) <==> Claims(d, n, w)
  }

  /** What the first pass over the edges has found. */
  ghost predicate EdgesIndexed(d: Scene, edges: seq<Edge>, about: Index) {
    (forall w :: w in about ==> about[w] != []) &&
    forall w, n :: n in ListFor(about, w) <==> n in d.nodes && IsIntent(n) && ByEdge(d, edges, n, w)
  }

  method FindIntent(intents: seq<Node>, id: string) returns (r: Option<Node>)
    ensures r.None? ==> forall n :: n in intents ==> n.nodeId != id
    ensures r.Some? ==> r.value in intents && r.value.nodeId == id
  {
    for k := 0 to |intents|
      invariant forall j :: 0 <= j < k ==> intents[j].nodeId != id
    {
      if intents[k].nodeId == id {
        return Some(intents[k]);
      }
    }
    return None;
  }

  method Intents(nodes: seq<Node>) returns (intents: seq<Node>)
    ensures forall n :: n in intents <==> n in nodes && IsIntent(n)
  {
    intents := [];
    for k := 0 to |nodes|
      invariant forall n :: n in intents <==> n in nodes[..k] && IsIntent(n)
    {
      assert nodes[..k + 1] == nodes[..k] + [nodes[k]];
      if IsIntent(nodes[k]) {
        intents := intents + [nodes[k]];
      }
    }
    assert nodes[..|nodes|] == nodes;
  }

  lemma SameIdSameNode(nodes: seq<Node>, a: Node, b: Node)
    requires DistinctNodes(nodes) && a in nodes && b in nodes && a.nodeId == b.nodeId
    ensures a == b
  {
  }

  lemma OneEdgeIndexed(d: Scene, edges: seq<Edge>, e: Edge, about: Index, about': Index, found: Option<Node>)
    requires DistinctNodes(d.nodes) && EdgesIndexed(d, edges, about)
    requires IsAbout(d, e) ==> match found
             case None => about' == about && forall n :: n in d.nodes && IsIntent(n) ==> n.nodeId != e.fromId
             case Some(i) =>
                 i in d.nodes && IsIntent(i) && i.nodeId == e.fromId &&
                 about' == about[e.toId := ListFor(about, e.toId) + [i]]
    requires !IsAbout(d, e) ==> about' == about
    ensures EdgesIndexed(d, edges + [e], about')
  {
    forall w, n ensures n in ListFor(about', w) <==> n in d.nodes && IsIntent(n) && ByEdge(d, edges + [e], n, w) {
      OneMoreEdge(d, edges, e, n, w);
      if n in d.nodes && IsIntent(n) && Links(d, e, n, w) {
        SameIdSameNode(d.nodes, n, found.value);
      }
    }
  }

  lemma OneMoreEdge(d: Scene, edges: seq<Edge>, e: Edge, n: Node, work: string)
    ensures ByEdge(d, edges + [e], n, work) <==> ByEdge(d, edges, n, work) || Links(d, e, n, work)
  {
    assert e in edges + [e];
    assert forall x :: x in edges ==> x in edges + [e];
  }

  method IndexEdges(d: Scene, intents: seq<Node>) returns (about: Index)
    requires forall n :: n in intents <==> n in d.nodes && IsIntent(n)
    ensures DistinctNodes(d.nodes) ==> EdgesIndexed(d, d.edges, about)
  {
    about := map[];
    for k := 0 to |d.edges|
      invariant DistinctNodes(d.nodes) ==> EdgesIndexed(d, d.edges[..k], about)
    {
      var e := d.edges[k];
      ghost var before := about;
      var found := None;
      if IsAbout(d, e) {
        found := FindIntent(intents, e.fromId);
        if found.Some? {
          about := about[e.toId := ListFor(about, e.toId) + [found.value]];
        }
      }
      assert d.edges[..k + 1] == d.edges[..k] + [e];
      if DistinctNodes(d.nodes) {
        OneEdgeIndexed(d, d.edges[..k], e, before, about, found);
      }
    }
    assert d.edges[..|d.edges|] == d.edges;
  }

  /** The second pass, over the properties of the intents in `done`. */
  ghost predicate PropertiesIndexed(d: Scene, done: seq<Node>, about: Index) {
    (forall w :: w in about ==> about[w] != []) &&
    forall w, n :: n in ListFor(about, w) <==>
      n in d.nodes && IsIntent(n) && (ByEdge(d, d.edges, n, w) || (n in done && AboutOf(n) == Some(w)))
  }

  predicate HasId(list: seq<Node>, id: string) {
    exists k | 0 <= k < |list| :: list[k].nodeId == id
  }

  lemma OneIntentIndexed(d: Scene, done: seq<Node>, i: Node, about: Index)
    requires DistinctNodes(d.nodes) && PropertiesIndexed(d, done, about) && i in d.nodes && IsIntent(i)
    ensures PropertiesIndexed(d, done + [i], WithProperty(about, i))
  {
    var about' := WithProperty(about, i);
    forall w, n ensures n in ListFor(about', w) <==>
        (n in d.nodes && IsIntent(n) && (ByEdge(d, d.edges, n, w) || (n in done + [i] && AboutOf(n) == Some(w)))) {
      if AboutOf(i) == Some(w) && HasId(ListFor(about, w), i.nodeId) {
        var k :| 0 <= k < |ListFor(about, w)| && ListFor(about, w)[k].nodeId == i.nodeId;
        SameIdSameNode(d.nodes, ListFor(about, w)[k], i);
      }
    }
  }

  function WithProperty(about: Index, i: Node): Index {
    match AboutOf(i)
    case None => about
    case Some(w) =>
      var list := ListFor(about, w);
      about[w := if HasId(list, i.nodeId) then list else list + [i]]
  }

  method IndexIntents(d: Scene, intents: seq<Node>) returns (about: Index)
    requires forall n :: n in intents <==> n in d.nodes && IsIntent(n)
    ensures DistinctNodes(d.nodes) ==> Indexes(d, about)
  {
    about := IndexEdges(d, intents);
    for k := 0 to |intents|
      invariant DistinctNodes(d.nodes) ==> PropertiesIndexed(d, intents[..k], about)
    {
      var i := intents[k];
      if DistinctNodes(d.nodes) {
        OneIntentIndexed(d, intents[..k], i, about);
      }
      assert intents[..k + 1] == intents[..k] + [i];
      var w := AboutOf(i);
      if w.Some? {
        var list := ListFor(about, w.value);
        if !HasId(list, i.nodeId) {
          list := list + [i];
        }
        about := about[w.value := list];
      }
    }
    assert intents[..|intents|] == intents;
  }

  // --- What a list of intents says --------------------------------------------------

  function StringLe(): (string, string) -> bool {
    (a: string, b: string) => Text.Le(a, b)
  }

  function TypeTexts(list: seq<Node>): seq<string> {
    if list == [] then []
    else (if IntentTypeOf(list[0]) != "" then [IntentTypeOf(list[0])] else []) + TypeTexts(list[1..])
  }

  /** `Vec::dedup`: drops repetitions of neighbours. */
  function Dedup(s: seq<string>): seq<string> {
    if |s| < 2 then s
    else if s[0] == s[1] then Dedup(s[1..])
    else [s[0]] + Dedup(s[1..])
  }

  function TypesOf(list: seq<Node>): seq<string> {
    Dedup(Sort(TypeTexts(list), StringLe()))
  }

  function OwnersOf(list: seq<Node>): set<string> {
    set k | 0 <= k < |list| && OwnerOf(list[k]).Some? :: OwnerOf(list[k]).value
  }

  function IdsOf(list: seq<Node>): seq<string> {
    seq(|list|, k requires 0 <= k < |list| => list[k].nodeId)
  }

  function NamesOf(list: seq<Node>): seq<string> {
    seq(|list|, k requires 0 <= k < |list| => list[k].displayName)
  }

  predicate HasShip(list: seq<Node>) {
    exists k | 0 <= k < |list| :: IntentTypeOf(list[k]) == "SHIP"
  }

  predicate AllDemo(list: seq<Node>) {
    list != [] && forall k | 0 <= k < |list| :: NodeIsDemo(list[k])
  }

  function SeedNote(list: seq<Node>): seq<string> {
    if (exists k | 0 <= k < |list| :: NodeIsDemo(list[k])) && !AllDemo(list) then ["includes_seed_intent"] else []
  }

  lemma StringOrder()
    ensures Preorder(StringLe())
    ensures forall a: string, b: string :: Text.Le(a, b) && Text.Le(b, a) ==> a == b
  {
    forall a: string, b: string ensures (Text.Le(a, b) || Text.Le(b, a)) &&
        (Text.Le(a, b) && Text.Le(b, a) ==> a == b) {
      Text.LeTotal(a, b);
    }
    forall a: string, b: string, c: string | Text.Le(a, b) && Text.Le(b, c) ensures Text.Le(a, c) {
      Text.LeTransitive(a, b, c);
    }
  }

  lemma {:induction false} DedupSorted(s: seq<string>)
    requires SortedBy(s, StringLe())
    ensures NoRepeats(Dedup(s)) && (forall x :: x in Dedup(s) <==> x in s)
    ensures s != [] ==> Dedup(s) != [] && Dedup(s)[0] == s[0]
  {
    if |s| >= 2 {
      StringOrder();
      DedupSorted(s[1..]);
      assert s == [s[0]] + s[1..];
      if s[0] != s[1] {
        forall x | x in s[1..] ensures x != s[0] {
          var k :| 1 <= k < |s| && s[k] == x;
          assert Text.Le(s[0], s[1]) && (k == 1 || Text.Le(s[1], s[k]));
        }
        var r := Dedup(s[1..]);
        forall k | 0 <= k < |r| ensures r[k] != s[0] {
          assert r[k] in r;
        }
      }
    }
  }

  lemma {:induction false} TypeTextsAre(list: seq<Node>)
    ensures forall t :: t in TypeTexts(list) <==> t != "" && exists n :: n in list && IntentTypeOf(n) == t
  {
    if list != [] {
      TypeTextsAre(list[1..]);
      assert list == [list[0]] + list[1..];
      forall t ensures t in TypeTexts(list) <==> t != "" && exists n :: n in list && IntentTypeOf(n) == t {
        if IntentTypeOf(list[0]) == t {
          assert list[0] in list;
        }
        if n :| n in list[1..] && IntentTypeOf(n) == t {
          assert n in list;
        }
      }
    }
  }

  lemma TypesAre(list: seq<Node>)
    ensures NoRepeats(TypesOf(list))
    ensures forall t :: t in TypesOf(list) <==> t != "" && exists n :: n in list && IntentTypeOf(n) == t
  {
    var texts := TypeTexts(list);
    StringOrder();
    SortSorted(texts, StringLe());
    DedupSorted(Sort(texts, StringLe()));
    TypeTextsAre(list);
    forall t ensures t in Sort(texts, StringLe()) <==> t in texts {
      assert t in multiset(Sort(texts, StringLe())) <==> t in multiset(texts);
    }
  }

  /** The list holds exactly the intents about the work item. */
  ghost predicate ListsClaims(d: Scene, list: seq<Node>, work: string) {
    forall n :: n in list <==> Claims(d, n, work)
  }

  lemma TypesAreClaimed(d: Scene, list: seq<Node>, work: string)
    requires ListsClaims(d, list, work)
    ensures NoRepeats(TypesOf(list)) && forall t :: t in TypesOf(list) <==> t != "" && Claimed(d, work, t)
  {
    TypesAre(list);
  }

  lemma ShipIsClaimed(d: Scene, list: seq<Node>, work: string)
    requires ListsClaims(d, list, work)
    ensures HasShip(list) <==> Claimed(d, work, "SHIP")
  {
    if Claimed(d, work, "SHIP") {
      var n :| Claims(d, n, work) && IntentTypeOf(n) == "SHIP";
      assert n in list;
    }
  }

  lemma OwnersAreOwners(d: Scene, list: seq<Node>, work: string)
    requires ListsClaims(d, list, work)
    ensures forall o :: o in OwnersOf(list) <==> OwnedBy(d, work, o)
    ensures |OwnersOf(list)| > 1 <==> SeveralOwners(d, work)
  {
    forall o ensures o in OwnersOf(list) <==> OwnedBy(d, work, o) {
      if OwnedBy(d, work, o) {
        var n :| Claims(d, n, work) && OwnerOf(n) == Some(o);
        assert n in list;
      }
    }
    MoreThanOne(OwnersOf(list));
  }

  lemma MoreThanOne(s: set<string>)
    ensures |s| > 1 <==> exists a, b :: a in s && b in s && a != b
  {
    if |s| > 1 {
      var a :| a in s;
      assert |s - {a}| == |s| - 1;
      var b :| b in s - {a};
    }
    if a, b :| a in s && b in s && a != b {
      assert b in s - {a} && |s - {a}| == |s| - 1;
    }
  }

  lemma DemoIsDemo(d: Scene, list: seq<Node>, work: string)
    requires ListsClaims(d, list, work)
    ensures AllDemo(list) <==> AllClaimsDemo(d, work)
    ensures list == [] <==> forall n :: !Claims(d, n, work)
  {
    DemoMembers(list);
    if list != [] {
      assert list[0] in list;
    }
  }

  lemma IdsAreClaims(d: Scene, list: seq<Node>, work: string)
    requires ListsClaims(d, list, work)
    ensures forall x :: x in IdsOf(list) <==> exists n :: Claims(d, n, work) && n.nodeId == x
  {
    forall x ensures x in IdsOf(list) <==> exists n :: Claims(d, n, work) && n.nodeId == x {
      if x in IdsOf(list) {
        var k :| 0 <= k < |list| && IdsOf(list)[k] == x;
        assert list[k] in list;
      }
      if n :| Claims(d, n, work) && n.nodeId == x {
        assert n in list;
        var k :| 0 <= k < |list| && list[k] == n;
        assert IdsOf(list)[k] == x;
      }
    }
  }

  lemma NoteIsMixed(d: Scene, list: seq<Node>, work: string)
    requires ListsClaims(d, list, work)
    ensures SeedNote(list) == MixedNote(d, work)
  {
    forall k | 0 <= k < |list| ensures Claims(d, list[k], work) {
      assert list[k] in list;
    }
    if n :| Claims(d, n, work) && NodeIsDemo(n) {
      assert n in list;
    }
    if n :| Claims(d, n, work) && !NodeIsDemo(n) {
      assert n in list;
    }
  }

  lemma NamesAreClaims(d: Scene, list: seq<Node>, work: string)
    requires ListsClaims(d, list, work)
    ensures NamesClaims(d, NamesOf(list), work)
  {
    forall x ensures x in NamesOf(list) <==> exists n :: Claims(d, n, work) && n.displayName == x {
      if x in NamesOf(list) {
        var k :| 0 <= k < |list| && NamesOf(list)[k] == x;
        assert list[k] in list;
      }
      if n :| Claims(d, n, work) && n.displayName == x {
        assert n in list;
        var k :| 0 <= k < |list| && list[k] == n;
        assert NamesOf(list)[k] == x;
      }
    }
  }

  lemma NamesShown(d: Scene, c: Card, list: seq<Node>, work: string)
    requires ListsClaims(d, list, work)
    ensures c.evidence == NamesOf(list) + SeedNote(list) ==> ShowsNames(d, c, work)
  {
    NoteIsMixed(d, list, work);
    NamesAreClaims(d, list, work);
  }

  lemma SignalShown(d: Scene, c: Card, list: seq<Node>, n: Node, work: string, signal: Node -> Option<seq<string>>)
    requires ListsClaims(d, list, work) && NodeWith(d, n, work) && signal(n).Some? &&
        c.evidence == signal(n).value + SeedNote(list)
    ensures ShowsSignal(d, c, work, signal)
  {
    NoteIsMixed(d, list, work);
  }

  // --- Cards about one work item ----------------------------------------------------

  function ClaimCard(id: CardId, kind: Kind, severity: Severity, work: string, list: seq<Node>, types: seq<string>,
      evidence: seq<string>, isDemo: bool): Card
  {
    Card(id, kind, severity, [work] + IdsOf(list), OwnersOf(list), types, evidence + SeedNote(list), isDemo)
  }

  lemma ClaimCardShows(d: Scene, c: Card, work: string, list: seq<Node>)
    requires ListsClaims(d, list, work) && c.nodeIds == [work] + IdsOf(list) && c.owners == OwnersOf(list)
    ensures ShowsClaims(d, c, work)
    ensures c.intentTypes == TypesOf(list) ==> ShowsTypes(d, c, work)
  {
    IdsAreClaims(d, list, work);
    OwnersAreOwners(d, list, work);
    TypesAreClaimed(d, list, work);
    assert c.nodeIds[1..] == IdsOf(list);
  }

  /** Competing claims on one work item. */
  function OwnerCard(work: string, list: seq<Node>): Option<Card> {
    var types := TypesOf(list);
    var both := "SHIP" in types && "FREEZE" in types;
    if |list| < 2 then None
    else if |OwnersOf(list)| > 1 then
      Some(ClaimCard(Owners(work), if both then ShipVsFreeze else DualOwners, if both then High else Medium, work, list,
          types,
                     NamesOf(list), AllDemo(list)))
    else if both then
      Some(ClaimCard(ShipFreeze(work), ShipVsFreeze, High, work, list, types, NamesOf(list), AllDemo(list)))
    else None
  }

  lemma TwoClaims(d: Scene, list: seq<Node>, work: string)
    requires ListsClaims(d, list, work) && (SeveralOwners(d, work) || Contradictory(d, work))
    ensures |list| >= 2
  {
    if SeveralOwners(d, work) {
      var a, b :| OwnedBy(d, work, a) && OwnedBy(d, work, b) && a != b;
      var m :| Claims(d, m, work) && OwnerOf(m) == Some(a);
      var n :| Claims(d, n, work) && OwnerOf(n) == Some(b);
      assert m in list && n in list && m != n;
    } else {
      var m :| Claims(d, m, work) && IntentTypeOf(m) == "SHIP";
      var n :| Claims(d, n, work) && IntentTypeOf(n) == "FREEZE";
      assert m in list && n in list && m != n;
    }
  }

  lemma OwnerCardRight(d: Scene, work: string, list: seq<Node>)
    requires ListsClaims(d, list, work)
    ensures var r := OwnerCard(work, list);
            (r.Some? ==> Describes(d, r.value)) &&
            (IsConflict(d, Owners(work)) <==> r.Some? && r.value.id == Owners(work)) &&
            (IsConflict(d, ShipFreeze(work)) <==> r.Some? && r.value.id == ShipFreeze(work))
  {
    var r := OwnerCard(work, list);
    TypesAreClaimed(d, list, work);
    OwnersAreOwners(d, list, work);
    DemoIsDemo(d, list, work);
    if SeveralOwners(d, work) || Contradictory(d, work) {
      TwoClaims(d, list, work);
    }
    if r.Some? {
      ClaimCardShows(d, r.value, work, list);
      NamesShown(d, r.value, list, work);
    }
  }

  /** Friction in the properties of a work item, at most one card of each kind. */
  function FrictionCard(work: string, n: Node, list: seq<Node>): Option<Card> {
    match Signals.MergeFriction(n)
    case None => None
    case Some(ev) => Some(ClaimCard(Friction(work), MergeFriction, High, work, list, TypesOf(list), ev,
                                    AllDemo(list) || (list == [] && NodeIsDemo(n))))
  }

  function StaleCard(d: Scene, work: string, n: Node, list: seq<Node>): Option<Card> {
    match Signals.StaleReview(n, d.asOf, d.parse)
    case None => None
    case Some(ev) => Some(ClaimCard(Stale(work), StaleReview, Medium, work, list, TypesOf(list), ev,
                                    AllDemo(list) || (list == [] && NodeIsDemo(n))))
  }

  function CiCard(work: string, n: Node, list: seq<Node>): Option<Card> {
    if !HasShip(list) then None
    else
      match CiFailure(n)
      case None => None
      case Some(ev) => Some(ClaimCard(Ci(work), CiBlocked, High, work, list, ["SHIP"], ev, AllDemo(list)))
  }

  /** With distinct ids, a property of some node of an id is a property of the node of that id. */
  lemma OnlyNode(d: Scene, n: Node, work: string)
    requires DistinctNodes(d.nodes) && NodeWith(d, n, work)
    ensures forall m :: NodeWith(d, m, work) ==> m == n
  {
    forall m | NodeWith(d, m, work) ensures m == n {
      SameIdSameNode(d.nodes, m, n);
    }
  }

  lemma FrictionCardRight(d: Scene, work: string, n: Node, list: seq<Node>)
    requires DistinctNodes(d.nodes) && ListsClaims(d, list, work) && WorkNode(d, n, work)
    ensures RightCard(d, FrictionCard(work, n, list), Friction(work))
  {
    OnlyNode(d, n, work);
    if FrictionCard(work, n, list).Some? {
      FrictionCardDescribes(d, work, n, list);
    }
  }

  lemma FrictionCardDescribes(d: Scene, work: string, n: Node, list: seq<Node>)
    requires DistinctNodes(d.nodes) && ListsClaims(d, list, work) && WorkNode(d, n, work)
    requires FrictionCard(work, n, list).Some?
    ensures Describes(d, FrictionCard(work, n, list).value)
  {
    var c := FrictionCard(work, n, list).value;
    OnlyNode(d, n, work);
    DemoIsDemo(d, list, work);
    ClaimCardShows(d, c, work, list);
    SignalShown(d, c, list, n, work, FrictionSignal());
    assert SaysWhat(d, c) && HasEvidence(d, c);
  }

  lemma StaleCardRight(d: Scene, work: string, n: Node, list: seq<Node>)
    requires DistinctNodes(d.nodes) && ListsClaims(d, list, work) && WorkNode(d, n, work)
    ensures RightCard(d, StaleCard(d, work, n, list), Stale(work))
  {
    OnlyNode(d, n, work);
    if StaleCard(d, work, n, list).Some? {
      StaleCardDescribes(d, work, n, list);
    }
  }

  lemma StaleCardDescribes(d: Scene, work: string, n: Node, list: seq<Node>)
    requires DistinctNodes(d.nodes) && ListsClaims(d, list, work) && WorkNode(d, n, work)
    requires StaleCard(d, work, n, list).Some?
    ensures Describes(d, StaleCard(d, work, n, list).value)
  {
    var c := StaleCard(d, work, n, list).value;
    OnlyNode(d, n, work);
    DemoIsDemo(d, list, work);
    ClaimCardShows(d, c, work, list);
    SignalShown(d, c, list, n, work, StaleSignal(d));
    assert SaysWhat(d, c) && HasEvidence(d, c);
  }

  lemma CiCardDescribes(d: Scene, work: string, n: Node, list: seq<Node>)
    requires ListsClaims(d, list, work) && NodeWith(d, n, work) && CiCard(work, n, list).Some?
    ensures CiCard(work, n, list).value.id == Ci(work) && Describes(d, CiCard(work, n, list).value)
  {
    var c := CiCard(work, n, list).value;
    DemoIsDemo(d, list, work);
    ClaimCardShows(d, c, work, list);
    SignalShown(d, c, list, n, work, CiSignal());
    assert SaysWhat(d, c) && HasEvidence(d, c);
  }

  lemma CiCardRight(d: Scene, work: string, n: Node, list: seq<Node>)
    requires DistinctNodes(d.nodes) && ListsClaims(d, list, work) && NodeWith(d, n, work)
    ensures RightCard(d, CiCard(work, n, list), Ci(work))
  {
    if CiCard(work, n, list).Some? {
      CiCardDescribes(d, work, n, list);
    }
    OnlyNode(d, n, work);
    ShipIsClaimed(d, list, work);
  }

  // --- Cards about blocks and open blockers -----------------------------------------

  ghost predicate HasCard(cards: seq<Card>, id: CardId) {
    exists c :: c in cards && c.id == id
  }

  /** Every card reports a conflict there is, and says what it must. */
  ghost predicate Sound(d: Scene, cards: seq<Card>) {
    forall c :: c in cards ==> IsConflict(d, c.id) && Describes(d, c)
  }

  /** The block edges in order, with their places among all edges. */
  ghost predicate PlacedBlocks(d: Scene, blocks: seq<Edge>, at: seq<nat>, n: nat) {
    n <= |d.edges| && |at| == |blocks| &&
    (forall i :: 0 <= i < |at| ==> at[i] < n && d.edges[at[i]] == blocks[i] && IsBlock(d, blocks[i])) &&
    (forall i, j :: 0 <= i < j < |at| ==> at[i] < at[j]) &&
    forall k :: 0 <= k < n && IsBlock(d, d.edges[k]) ==> k in at
  }

  method BlockEdges(d: Scene) returns (blocks: seq<Edge>, ghost at: seq<nat>)
    ensures forall e :: e in blocks <==> e in d.edges && IsBlock(d, e)
    ensures PlacedBlocks(d, blocks, at, |d.edges|)
  {
    blocks, at := [], [];
    for k := 0 to |d.edges|
      invariant PlacedBlocks(d, blocks, at, k)
      invariant forall e :: e in blocks <==> e in d.edges[..k] && IsBlock(d, e)
    {
      assert d.edges[..k + 1] == d.edges[..k] + [d.edges[k]];
      OneMorePlaced(d, blocks, at, k);
      if IsBlock(d, d.edges[k]) {
        blocks, at := blocks + [d.edges[k]], at + [k];
      }
    }
    assert d.edges[..|d.edges|] == d.edges;
  }

  lemma OneMorePlaced(d: Scene, blocks: seq<Edge>, at: seq<nat>, k: nat)
    requires k < |d.edges| && PlacedBlocks(d, blocks, at, k)
    ensures if IsBlock(d, d.edges[k]) then PlacedBlocks(d, blocks + [d.edges[k]], at + [k], k + 1)
        else PlacedBlocks(d, blocks, at, k + 1)
  {
    assert (at + [k])[|at|] == k;
  }

  function MutualCard(a: Edge, b: Edge, involved: seq<Node>): Card {
    Card(Mutual(a.fromId, a.toId), DualBlocks, High, [a.fromId, a.toId], {}, ["BLOCKED"], [a.edgeId, b.edgeId],
        AllDemo(involved))
  }

  predicate Opposite(a: Edge, b: Edge) {
    a.fromId == b.toId && a.toId == b.fromId
  }

  lemma MutualCardRight(d: Scene, about: Index, blocks: seq<Edge>, at: seq<nat>, i: nat, j: nat)
    requires Indexes(d, about) && PlacedBlocks(d, blocks, at, |d.edges|) && i < j < |blocks| &&
        Opposite(blocks[i], blocks[j])
    ensures var c := MutualCard(blocks[i], blocks[j],
        ListFor(about, blocks[i].fromId) + ListFor(about, blocks[i].toId));
            IsConflict(d, c.id) && Describes(d, c)
  {
    var x, y := blocks[i].fromId, blocks[i].toId;
    assert BlockAt(d, at[i], x, y) && BlockAt(d, at[j], y, x);
    EndsDemo(d, ListFor(about, x), ListFor(about, y), x, y);
    assert ShowsBlocks(d, MutualCard(blocks[i], blocks[j], ListFor(about, x) + ListFor(about, y)), at[i], at[j], x, y);
  }

  lemma EndsDemo(d: Scene, a: seq<Node>, b: seq<Node>, x: string, y: string)
    requires ListsClaims(d, a, x) && ListsClaims(d, b, y)
    ensures AllDemo(a + b) <==> AllEndsDemo(d, x, y)
  {
    var all := a + b;
    forall n ensures n in all <==> Claims(d, n, x) || Claims(d, n, y) {
      assert n in all <==> n in a || n in b;
    }
    DemoMembers(all);
  }

  lemma DemoMembers(list: seq<Node>)
    ensures AllDemo(list) <==> (exists n :: n in list) && forall n :: n in list ==> NodeIsDemo(n)
  {
    if list != [] {
      assert list[0] in list;
    }
    forall k | 0 <= k < |list| ensures list[k] in list {
    }
  }

  method MutualCards(d: Scene, about: Index, blocks: seq<Edge>, ghost at: seq<nat>) returns (cards: seq<Card>)
    requires PlacedBlocks(d, blocks, at, |d.edges|)
    ensures Indexes(d, about) ==> Sound(d, cards)
    ensures forall i, j :: 0 <= i < j < |blocks| && Opposite(blocks[i], blocks[j]) ==>
        HasCard(cards, Mutual(blocks[i].fromId, blocks[i].toId))
  {
    cards := [];
    for i := 0 to |blocks|
      invariant Indexes(d, about) ==> Sound(d, cards)
      invariant forall k, j :: 0 <= k < i && k < j < |blocks| && Opposite(blocks[k], blocks[j]) ==>
                  HasCard(cards, Mutual(blocks[k].fromId, blocks[k].toId))
    {
      for j := i + 1 to |blocks|
        invariant Indexes(d, about) ==> Sound(d, cards)
        invariant forall k, l :: 0 <= k < i && k < l < |blocks| && Opposite(blocks[k], blocks[l]) ==>
                    HasCard(cards, Mutual(blocks[k].fromId, blocks[k].toId))
        invariant forall l :: i < l < j && Opposite(blocks[i], blocks[l]) ==>
            HasCard(cards, Mutual(blocks[i].fromId, blocks[i].toId))
      {
        if Opposite(blocks[i], blocks[j]) {
          var c := MutualCard(blocks[i], blocks[j], ListFor(about, blocks[i].fromId) + ListFor(about, blocks[i].toId));
          if Indexes(d, about) {
            MutualCardRight(d, about, blocks, at, i, j);
          }
          MoreCards(d, cards, c);
          cards := cards + [c];
        }
      }
    }
  }

  lemma MoreCards(d: Scene, cards: seq<Card>, c: Card)
    ensures forall id :: HasCard(cards, id) || id == c.id ==> HasCard(cards + [c], id)
    ensures Sound(d, cards) && IsConflict(d, c.id) && Describes(d, c) ==> Sound(d, cards + [c])
  {
    forall id | HasCard(cards, id) || id == c.id ensures HasCard(cards + [c], id) {
      if HasCard(cards, id) {
        var x :| x in cards && x.id == id;
        assert x in cards + [c];
      } else {
        assert c in cards + [c];
      }
    }
  }

  function BlockedCard(n: Node): Card {
    var about := UnwrapOr(AboutOf(n), "");
    Card(Blocked(n.nodeId), OpenBlocker, Medium,
         (if n.nodeId != "" then [n.nodeId] else []) + (if about != "" then [about] else []),
         (match OwnerOf(n) case Some(o) => {o} case None => {}), ["BLOCKED"], EvidenceTexts(n) + SeedNote([n]),
             AllDemo([n]))
  }

  function EvidenceTexts(n: Node): seq<string> {
    match n.properties.Get("evidence")
    case Some(JArr(items)) => Texts(items)
    case _ => []
  }

  function Texts(items: seq<Json>): seq<string> {
    if items == [] then [] else (match items[0] case JStr(s) => [s] case _ => []) + Texts(items[1..])
  }

  lemma BlockedCardRight(d: Scene, n: Node)
    requires n in d.nodes && IsIntent(n) && IntentTypeOf(n) == "BLOCKED"
    ensures IsConflict(d, BlockedCard(n).id) && Describes(d, BlockedCard(n))
  {
    assert NodeWith(d, n, n.nodeId);
    assert [n][0] == n && AllDemo([n]) == NodeIsDemo(n);
    assert ShowsIntent(BlockedCard(n), n);
  }

  ghost predicate BlockersShown(intents: seq<Node>, k: nat, cards: seq<Card>)
    requires k <= |intents|
  {
    forall j :: 0 <= j < k && IntentTypeOf(intents[j]) == "BLOCKED" ==> HasCard(cards, Blocked(intents[j].nodeId))
  }

  lemma OneMoreBlocker(d: Scene, intents: seq<Node>, k: nat, cards: seq<Card>)
    requires k < |intents| && intents[k] in d.nodes && IsIntent(intents[k]) && IntentTypeOf(intents[k]) == "BLOCKED"
    requires Sound(d, cards) && BlockersShown(intents, k, cards)
    ensures Sound(d, cards + [BlockedCard(intents[k])])
    ensures BlockersShown(intents, k + 1, cards + [BlockedCard(intents[k])])
  {
    BlockedCardRight(d, intents[k]);
    OneMoreShown(d, intents, k, cards, BlockedCard(intents[k]));
  }

  lemma OneMoreShown(d: Scene, intents: seq<Node>, k: nat, cards: seq<Card>, c: Card)
    requires k < |intents| && Sound(d, cards) && BlockersShown(intents, k, cards)
    requires c.id == Blocked(intents[k].nodeId) && IsConflict(d, c.id) && Describes(d, c)
    ensures Sound(d, cards + [c]) && BlockersShown(intents, k + 1, cards + [c])
  {
    MoreCards(d, cards, c);
  }

  method OpenBlockerCards(d: Scene, intents: seq<Node>) returns (cards: seq<Card>)
    requires forall n :: n in intents ==> n in d.nodes && IsIntent(n)
    ensures Sound(d, cards)
    ensures forall n :: n in intents && IntentTypeOf(n) == "BLOCKED" ==> HasCard(cards, Blocked(n.nodeId))
  {
    cards := [];
    for k := 0 to |intents|
      invariant Sound(d, cards) && BlockersShown(intents, k, cards)
    {
      if IntentTypeOf(intents[k]) == "BLOCKED" {
        OneMoreBlocker(d, intents, k, cards);
        cards := cards + [BlockedCard(intents[k])];
      }
    }
  }

  function BlocksShipCard(e: Edge, list: seq<Node>): Card {
    Card(BlocksShip(e.fromId, e.toId), DualBlocks, High, [e.fromId, e.toId], {}, ["SHIP", "BLOCKED"],
         [e.edgeId] + SeedNote(list), AllDemo(list))
  }

  lemma BlocksShipCardRight(d: Scene, about: Index, blocks: seq<Edge>, at: seq<nat>, k: nat)
    requires Indexes(d, about) && PlacedBlocks(d, blocks, at, |d.edges|) && k < |blocks| &&
        HasShip(ListFor(about, blocks[k].toId))
    ensures var c := BlocksShipCard(blocks[k], ListFor(about, blocks[k].toId)); IsConflict(d, c.id) && Describes(d, c)
  {
    var e := blocks[k];
    assert BlockAt(d, at[k], e.fromId, e.toId);
    ShipIsClaimed(d, ListFor(about, e.toId), e.toId);
    DemoIsDemo(d, ListFor(about, e.toId), e.toId);
    NoteIsMixed(d, ListFor(about, e.toId), e.toId);
    assert ShowsBlock(d, BlocksShipCard(e, ListFor(about, e.toId)), at[k], e.fromId, e.toId);
  }

  /** Every block so far of something about to ship has its card. */
  ghost predicate ShipsDone(about: Index, blocks: seq<Edge>, cards: seq<Card>, k: nat) {
    k <= |blocks| && forall j :: 0 <= j < k && HasShip(ListFor(about, blocks[j].toId)) ==>
      HasCard(cards, BlocksShip(blocks[j].fromId, blocks[j].toId))
  }

  lemma OneShipMore(d: Scene, about: Index, blocks: seq<Edge>, cards: seq<Card>, k: nat)
    requires k < |blocks| && ShipsDone(about, blocks, cards, k)
    ensures ShipsDone(about, blocks, cards + [BlocksShipCard(blocks[k], ListFor(about, blocks[k].toId))], k + 1)
  {
    MoreCards(d, cards, BlocksShipCard(blocks[k], ListFor(about, blocks[k].toId)));
  }

  method BlocksShipCards(d: Scene, about: Index, blocks: seq<Edge>, ghost at: seq<nat>) returns (cards: seq<Card>)
    requires PlacedBlocks(d, blocks, at, |d.edges|)
    ensures Indexes(d, about) ==> Sound(d, cards)
    ensures forall e :: e in blocks && HasShip(ListFor(about, e.toId)) ==> HasCard(cards, BlocksShip(e.fromId, e.toId))
  {
    cards := [];
    for k := 0 to |blocks|
      invariant Indexes(d, about) ==> Sound(d, cards)
      invariant ShipsDone(about, blocks, cards, k)
    {
      var list := ListFor(about, blocks[k].toId);
      if HasShip(list) {
        if Indexes(d, about) {
          BlocksShipCardRight(d, about, blocks, at, k);
          MoreCards(d, cards, BlocksShipCard(blocks[k], list));
        }
        OneShipMore(d, about, blocks, cards, k);
        cards := cards + [BlocksShipCard(blocks[k], list)];
      }
    }
  }

  // --- All cards --------------------------------------------------------------------

  method OwnerCards(d: Scene, about: Index) returns (cards: seq<Card>)
    ensures Indexes(d, about) ==> Sound(d, cards)
    ensures forall w :: w in about && OwnerCard(w, about[w]).Some? ==> HasCard(cards, OwnerCard(w, about[w]).value.id)
  {
    cards := [];
    var todo := about.Keys;
    while todo != {}
      invariant todo <= about.Keys && (Indexes(d, about) ==> Sound(d, cards))
      invariant forall w :: w in about && w !in todo && OwnerCard(w, about[w]).Some? ==>
          HasCard(cards, OwnerCard(w, about[w]).value.id)
      decreases todo
    {
      var w :| w in todo;
      todo := todo - {w};
      var c := OwnerCard(w, about[w]);
      if c.Some? {
        if Indexes(d, about) {
          assert about[w] == ListFor(about, w);
          OwnerCardRight(d, w, about[w]);
        }
        MoreCards(d, cards, c.value);
        cards := cards + [c.value];
      }
    }
  }

  method WorkIds(nodes: seq<Node>, about: Index) returns (ids: set<string>)
    ensures forall w :: w in ids <==> w in about || exists n :: n in nodes && LooksLikeWork(n) && n.nodeId == w
  {
    ids := about.Keys;
    for k := 0 to |nodes|
      invariant forall w :: w in ids <==> w in about || exists n :: n in nodes[..k] && LooksLikeWork(n) && n.nodeId == w
    {
      assert nodes[..k + 1] == nodes[..k] + [nodes[k]];
      if LooksLikeWork(nodes[k]) {
        ids := ids + {nodes[k].nodeId};
      }
    }
    assert nodes[..|nodes|] == nodes;
  }

  method NodesById(nodes: seq<Node>) returns (byId: map<string, Node>)
    ensures forall n :: n in nodes ==> n.nodeId in byId
    ensures forall id :: id in byId ==> byId[id] in nodes && byId[id].nodeId == id
  {
    byId := map[];
    for k := 0 to |nodes|
      invariant forall j :: 0 <= j < k ==> nodes[j].nodeId in byId
      invariant forall id :: id in byId ==> byId[id] in nodes && byId[id].nodeId == id
    {
      byId := byId[nodes[k].nodeId := nodes[k]];
    }
  }

  function Listed(c: Option<Card>): seq<Card> {
    if c.Some? then [c.value] else []
  }

  function FrictionCards(d: Scene, w: string, n: Node, list: seq<Node>): seq<Card> {
    Listed(FrictionCard(w, n, list)) + Listed(StaleCard(d, w, n, list)) + Listed(CiCard(w, n, list))
  }

  /** The friction cards of one work item, sound and complete. */
  ghost predicate FrictionCovered(d: Scene, cards: seq<Card>, w: string) {
    (IsConflict(d, Friction(w)) ==> HasCard(cards, Friction(w))) &&
    (IsConflict(d, Stale(w)) ==> HasCard(cards, Stale(w))) &&
    (IsConflict(d, Ci(w)) ==> HasCard(cards, Ci(w)))
  }

  /** A card for `id` exactly when there is the conflict. */
  ghost predicate RightCard(d: Scene, c: Option<Card>, id: CardId) {
    (c.Some? ==> c.value.id == id && Describes(d, c.value)) && (c.Some? <==> IsConflict(d, id))
  }

  lemma RightListed(d: Scene, c: Option<Card>, id: CardId)
    requires RightCard(d, c, id)
    ensures Sound(d, Listed(c)) && (IsConflict(d, id) ==> HasCard(Listed(c), id))
  {
    assert c.Some? ==> c.value in Listed(c);
  }

  lemma FrictionCardsRight(d: Scene, w: string, n: Node, list: seq<Node>)
    requires DistinctNodes(d.nodes) && ListsClaims(d, list, w) && WorkNode(d, n, w)
    ensures Sound(d, FrictionCards(d, w, n, list)) && FrictionCovered(d, FrictionCards(d, w, n, list), w)
  {
    FrictionCardRight(d, w, n, list);
    StaleCardRight(d, w, n, list);
    CiCardRight(d, w, n, list);
    ThreeListed(d, w, FrictionCard(w, n, list), StaleCard(d, w, n, list), CiCard(w, n, list));
  }

  lemma ThreeListed(d: Scene, w: string, a: Option<Card>, b: Option<Card>, c: Option<Card>)
    requires RightCard(d, a, Friction(w)) && RightCard(d, b, Stale(w)) && RightCard(d, c, Ci(w))
    ensures var all := Listed(a) + Listed(b) + Listed(c); Sound(d, all) && FrictionCovered(d, all, w)
  {
    RightListed(d, a, Friction(w));
    RightListed(d, b, Stale(w));
    RightListed(d, c, Ci(w));
    JoinedCards(d, Listed(a), Listed(b));
    JoinedCards(d, Listed(a) + Listed(b), Listed(c));
  }

  lemma JoinedCards(d: Scene, a: seq<Card>, b: seq<Card>)
    ensures Sound(d, a) && Sound(d, b) ==> Sound(d, a + b)
    ensures forall id :: HasCard(a + b, id) <==> HasCard(a, id) || HasCard(b, id)
  {
    assert forall c :: c in a + b <==> c in a || c in b;
  }

  /** Nothing is reported about ids without a node, or with one that is neither work nor claimed. */
  lemma NoFriction(d: Scene, cards: seq<Card>, w: string)
    requires forall n :: !WorkNode(d, n, w)
    ensures FrictionCovered(d, cards, w)
  {
    if Claimed(d, w, "SHIP") {
      var i :| Claims(d, i, w) && IntentTypeOf(i) == "SHIP";
      assert forall n :: NodeWith(d, n, w) ==> WorkNode(d, n, w);
    }
  }

  ghost predicate CardsSoFar(d: Scene, cards: seq<Card>, ids: set<string>) {
    Sound(d, cards) && forall w :: w in ids ==> FrictionCovered(d, cards, w)
  }

  /** The cards of one id that looks like work, if it has a node. */
  function CardsOfId(d: Scene, about: Index, byId: map<string, Node>, w: string): seq<Card> {
    if w in byId then FrictionCards(d, w, byId[w], ListFor(about, w)) else []
  }

  lemma CardsOfIdRight(d: Scene, about: Index, byId: map<string, Node>, w: string)
    requires DistinctNodes(d.nodes) && Indexes(d, about)
    requires w in about || exists n :: n in d.nodes && LooksLikeWork(n) && n.nodeId == w
    requires (forall n :: n in d.nodes ==> n.nodeId in byId) && (w in byId ==> NodeWith(d, byId[w], w))
    ensures Sound(d, CardsOfId(d, about, byId, w)) && FrictionCovered(d, CardsOfId(d, about, byId, w), w)
  {
    if w in byId {
      WorkIdIsWork(d, about, byId[w], w);
      FrictionCardsRight(d, w, byId[w], ListFor(about, w));
    } else {
      NoFriction(d, [], w);
    }
  }

  lemma OneMoreId(d: Scene, cards: seq<Card>, more: seq<Card>, ids: set<string>, w: string)
    requires CardsSoFar(d, cards, ids) && Sound(d, more) && FrictionCovered(d, more, w)
    ensures CardsSoFar(d, cards + more, ids + {w})
  {
    JoinedCards(d, cards, more);
    forall x | x in ids + {w} ensures FrictionCovered(d, cards + more, x) {
      assert x in ids ==> FrictionCovered(d, cards, x);
    }
  }

  method AllFrictionCards(d: Scene, about: Index) returns (cards: seq<Card>)
    ensures DistinctNodes(d.nodes) && Indexes(d, about) ==> Sound(d, cards) && forall w :: FrictionCovered(d, cards, w)
  {
    var ids := WorkIds(d.nodes, about);
    var byId := NodesById(d.nodes);
    cards := [];
    var todo := ids;
    ghost var ok, done := DistinctNodes(d.nodes) && Indexes(d, about), {};
    while todo != {}
      invariant todo + done == ids
      invariant ok ==> CardsSoFar(d, cards, done)
      decreases todo
    {
      var w :| w in todo;
      if ok {
        CardsOfIdRight(d, about, byId, w);
        OneMoreId(d, cards, CardsOfId(d, about, byId, w), done, w);
      }
      cards, todo, done := cards + CardsOfId(d, about, byId, w), todo - {w}, done + {w};
    }
    if ok {
      EveryIdCovered(d, about, ids, cards);
    }
  }

  lemma EveryIdCovered(d: Scene, about: Index, ids: set<string>, cards: seq<Card>)
    requires DistinctNodes(d.nodes) && Indexes(d, about) && CardsSoFar(d, cards, ids)
    requires forall w :: w in ids <==> w in about || exists n :: n in d.nodes && LooksLikeWork(n) && n.nodeId == w
    ensures forall w :: FrictionCovered(d, cards, w)
  {
    forall w ensures FrictionCovered(d, cards, w) {
      if w !in ids {
        NotWork(d, about, ids, w);
        NoFriction(d, cards, w);
      }
    }
  }

  lemma WorkIdIsWork(d: Scene, about: Index, n: Node, w: string)
    requires DistinctNodes(d.nodes) && Indexes(d, about) && NodeWith(d, n, w)
    requires w in about || exists m :: m in d.nodes && LooksLikeWork(m) && m.nodeId == w
    ensures WorkNode(d, n, w)
  {
    OnlyNode(d, n, w);
    if w in about {
      assert about[w][0] in ListFor(about, w);
    } else {
      var m :| m in d.nodes && LooksLikeWork(m) && m.nodeId == w;
      assert NodeWith(d, m, w);
    }
  }

  lemma NotWork(d: Scene, about: Index, ids: set<string>, w: string)
    requires Indexes(d, about) && w !in ids
    requires forall w :: w in ids <==> w in about || exists n :: n in d.nodes && LooksLikeWork(n) && n.nodeId == w
    ensures forall n :: !WorkNode(d, n, w)
  {
    assert ListFor(about, w) == [];
  }

  /** The conflict id as text. */
  function Render(tenant: string, id: CardId): string {
    "cfl_" + tenant + "_" +
    match id
    case Owners(w) => w + "_owners"
    case ShipFreeze(w) => w + "_ship_freeze"
    case Mutual(x, y) => "mutual_" + x + "_" + y
    case Blocked(i) => "blocked_" + i
    case BlocksShip(x, y) => "blocks_ship_" + x + "_" + y
    case Friction(w) => "merge_friction_" + w
    case Stale(w) => "stale_review_" + w
    case Ci(w) => "ci_blocked_" + w
  }

  ghost predicate Carries(tenant: string, cards: seq<Card>, text: string) {
    exists c :: c in cards && Render(tenant, c.id) == text
  }

  ghost predicate DistinctTexts(tenant: string, cards: seq<Card>) {
    forall i, j :: 0 <= i < j < |cards| ==> Render(tenant, cards[i].id) != Render(tenant, cards[j].id)
  }

  /** `retain` with a set of id texts: the first card of every text stays. */
  method KeepFirst(tenant: string, cards: seq<Card>) returns (out: seq<Card>)
    ensures DistinctTexts(tenant, out) && (forall c :: c in out ==> c in cards)
    ensures forall text :: Carries(tenant, out, text) <==> Carries(tenant, cards, text)
  {
    out := [];
    var seen: set<string> := {};
    for k := 0 to |cards|
      invariant DistinctTexts(tenant, out) && (forall c :: c in out ==> c in cards && Render(tenant, c.id) in seen)
      invariant forall text :: text in seen ==> Carries(tenant, out, text)
      invariant forall j :: 0 <= j < k ==> Render(tenant, cards[j].id) in seen
    {
      var text := Render(tenant, cards[k].id);
      if text !in seen {
        KeptCards(tenant, out, cards[k]);
        out, seen := out + [cards[k]], seen + {text};
      }
    }
  }

  lemma KeptCards(tenant: string, cards: seq<Card>, c: Card)
    ensures forall text :: Carries(tenant, cards + [c], text) <==>
        Carries(tenant, cards, text) || text == Render(tenant, c.id)
  {
    assert forall x :: x in cards + [c] <==> x in cards || x == c;
  }

  ghost predicate DistinctCards(cards: seq<Card>) {
    forall i, j :: 0 <= i < j < |cards| ==> cards[i].id != cards[j].id
  }

  function Rank(s: Severity): nat {
    match s
    case High => 3
    case Medium => 2
    case Low => 1
  }

  /** Most severe first, then by id. */
  function BySeverity(tenant: string): (Card, Card) -> bool {
    (a: Card, b: Card) =>
      Rank(a.severity) > Rank(b.severity) ||
      (Rank(a.severity) == Rank(b.severity) && Text.Le(Render(tenant, a.id), Render(tenant, b.id)))
  }

  lemma SeverityOrder(tenant: string)
    ensures Preorder(BySeverity(tenant))
  {
    StringOrder();
    var le := BySeverity(tenant);
    forall a, b ensures le(a, b) || le(b, a) {
      assert Text.Le(Render(tenant, a.id), Render(tenant, b.id)) ||
          Text.Le(Render(tenant, b.id), Render(tenant, a.id)) by {
        Text.LeTotal(Render(tenant, a.id), Render(tenant, b.id));
      }
    }
    forall a, b, c | le(a, b) && le(b, c) ensures le(a, c) {
      if Text.Le(Render(tenant, a.id), Render(tenant, b.id)) && Text.Le(Render(tenant, b.id), Render(tenant, c.id)) {
        Text.LeTransitive(Render(tenant, a.id), Render(tenant, b.id), Render(tenant, c.id));
      }
    }
  }

  /** High before Medium before Low, and by id text among equals. */
  lemma MostSevereFirst(tenant: string, cards: seq<Card>, i: nat, j: nat)
    requires SortedBy(cards, BySeverity(tenant)) && i < j < |cards|
    ensures (cards[j].severity == High ==> cards[i].severity == High) &&
        (cards[i].severity == Low ==> cards[j].severity == Low)
    ensures cards[i].severity == cards[j].severity ==> Text.Le(Render(tenant, cards[i].id), Render(tenant, cards[j].id))
  {
    assert BySeverity(tenant)(cards[i], cards[j]);
    assert Rank(cards[i].severity) >= Rank(cards[j].severity);
    assert cards[i].severity in {High, Medium, Low} && cards[j].severity in {High, Medium, Low};
  }

  lemma SameCards(tenant: string, cards: seq<Card>, r: seq<Card>)
    requires DistinctTexts(tenant, cards) && multiset(cards) == multiset(r)
    ensures DistinctTexts(tenant, r) && forall c :: c in r <==> c in cards
  {
    Rearranged(cards, r);
    forall i, j | 0 <= i < j < |r| ensures Render(tenant, r[i].id) != Render(tenant, r[j].id) {
      assert r[i] in cards && r[j] in cards;
    }
  }

  lemma SortedCards(tenant: string, cards: seq<Card>)
    requires DistinctTexts(tenant, cards)
    ensures var r := Sort(cards, BySeverity(tenant));
            SortedBy(r, BySeverity(tenant)) && DistinctTexts(tenant, r) && forall c :: c in r <==> c in cards
  {
    SeverityOrder(tenant);
    SortSorted(cards, BySeverity(tenant));
    SameCards(tenant, cards, Sort(cards, BySeverity(tenant)));
  }

  /** Every card is a conflict there is, no two share an id text, and every conflict's text is on a card. */
  ghost predicate Exact(d: Scene, cards: seq<Card>) {
    && Sound(d, cards) && DistinctTexts(d.tenant, cards)
    && forall id :: IsConflict(d, id) ==> Carries(d.tenant, cards, Render(d.tenant, id))
  }

  /** One card for every conflict there is and none besides. */
  ghost predicate OnePerConflict(d: Scene, cards: seq<Card>) {
    Sound(d, cards) && DistinctCards(cards) && forall id :: HasCard(cards, id) <==> IsConflict(d, id)
  }

  /** Different conflicts have different id texts. */
  ghost predicate NoneAlike(d: Scene) {
    forall a, b :: IsConflict(d, a) && IsConflict(d, b) && Render(d.tenant, a) == Render(d.tenant, b) ==> a == b
  }

  /** The id texts cost a conflict its card exactly when two conflicts have the same text. */
  lemma OnePerConflictIff(d: Scene, cards: seq<Card>)
    requires Exact(d, cards)
    ensures OnePerConflict(d, cards) <==> NoneAlike(d)
  {
    if OnePerConflict(d, cards) {
      forall a, b | IsConflict(d, a) && IsConflict(d, b) && Render(d.tenant, a) == Render(d.tenant, b) ensures a == b {
        assert HasCard(cards, a) && HasCard(cards, b);
        var c :| c in cards && c.id == a;
        var e :| e in cards && e.id == b;
        var i :| 0 <= i < |cards| && cards[i] == c;
        var j :| 0 <= j < |cards| && cards[j] == e;
      }
    } else if NoneAlike(d) {
      forall id | IsConflict(d, id) ensures HasCard(cards, id) {
        var c :| c in cards && Render(d.tenant, c.id) == Render(d.tenant, id);
        assert IsConflict(d, c.id);
      }
      assert DistinctCards(cards);
    }
  }

  /** Node ids may contain the character the texts are joined with, so two mutual blocks can have one text. */
  lemma MutualBlocksAlike(d: Scene)
    requires BlockAt(d, 0, "a_b", "c") && BlockAt(d, 1, "c", "a_b") && BlockAt(d, 2, "a", "b_c") &&
        BlockAt(d, 3, "b_c", "a")
    ensures !NoneAlike(d)
  {
    assert IsConflict(d, Mutual("a_b", "c")) && IsConflict(d, Mutual("a", "b_c"));
    assert "mutual_" + "a_b" + "_" + "c" == "mutual_" + "a" + "_" + "b_c";
    assert Render(d.tenant, Mutual("a_b", "c")) == Render(d.tenant, Mutual("a", "b_c"));
    assert Mutual("a_b", "c") != Mutual("a", "b_c") by {
      assert |"a_b"| != |"a"|;
    }
  }

  lemma ClaimsCovered(d: Scene, about: Index, cards: seq<Card>)
    requires Indexes(d, about)
    requires forall w :: w in about && OwnerCard(w, about[w]).Some? ==> HasCard(cards, OwnerCard(w, about[w]).value.id)
    ensures forall w :: IsConflict(d, Owners(w)) ==> HasCard(cards, Owners(w))
    ensures forall w :: IsConflict(d, ShipFreeze(w)) ==> HasCard(cards, ShipFreeze(w))
  {
    forall w ensures (IsConflict(d, Owners(w)) ==> HasCard(cards, Owners(w))) &&
        (IsConflict(d, ShipFreeze(w)) ==> HasCard(cards, ShipFreeze(w))) {
      OwnerCardRight(d, w, ListFor(about, w));
    }
  }

  /** Opposite blocks among all edges are found among the block edges, in the same order. */
  lemma BothPlaced(d: Scene, blocks: seq<Edge>, at: seq<nat>, j: nat, k: nat, x: string, y: string)
    returns (i: nat, l: nat)
    requires PlacedBlocks(d, blocks, at, |d.edges|)
    requires j < k && BlockAt(d, j, x, y) && BlockAt(d, k, y, x)
    ensures i < l < |blocks| && Opposite(blocks[i], blocks[l]) && blocks[i].fromId == x && blocks[i].toId == y
  {
    i :| 0 <= i < |at| && at[i] == j;
    l :| 0 <= l < |at| && at[l] == k;
  }

  lemma MutualCovered(d: Scene, blocks: seq<Edge>, at: seq<nat>, cards: seq<Card>)
    requires PlacedBlocks(d, blocks, at, |d.edges|)
    requires forall i, j :: 0 <= i < j < |blocks| && Opposite(blocks[i], blocks[j]) ==>
               HasCard(cards, Mutual(blocks[i].fromId, blocks[i].toId))
    ensures forall x, y :: IsConflict(d, Mutual(x, y)) ==> HasCard(cards, Mutual(x, y))
  {
    forall x, y | IsConflict(d, Mutual(x, y)) ensures HasCard(cards, Mutual(x, y)) {
      var j, k :| 0 <= j < k && BlockAt(d, j, x, y) && BlockAt(d, k, y, x);
      var i, l := BothPlaced(d, blocks, at, j, k, x, y);
    }
  }

  lemma BlocksShipCovered(d: Scene, about: Index, blocks: seq<Edge>, at: seq<nat>, cards: seq<Card>)
    requires Indexes(d, about) && PlacedBlocks(d, blocks, at, |d.edges|)
    requires forall e :: e in blocks && HasShip(ListFor(about, e.toId)) ==> HasCard(cards, BlocksShip(e.fromId, e.toId))
    ensures forall x, y :: IsConflict(d, BlocksShip(x, y)) ==> HasCard(cards, BlocksShip(x, y))
  {
    forall x, y | IsConflict(d, BlocksShip(x, y)) ensures HasCard(cards, BlocksShip(x, y)) {
      var k :| BlockAt(d, k, x, y);
      var i :| 0 <= i < |at| && at[i] == k;
      ShipIsClaimed(d, ListFor(about, y), y);
      assert blocks[i] in blocks;
    }
  }

  lemma BlockedCovered(d: Scene, intents: seq<Node>, cards: seq<Card>)
    requires forall n :: n in intents <==> n in d.nodes && IsIntent(n)
    requires forall n :: n in intents && IntentTypeOf(n) == "BLOCKED" ==> HasCard(cards, Blocked(n.nodeId))
    ensures forall i :: IsConflict(d, Blocked(i)) ==> HasCard(cards, Blocked(i))
  {
  }

  lemma AllCovered(d: Scene, cards: seq<Card>)
    requires forall w :: IsConflict(d, Owners(w)) ==> HasCard(cards, Owners(w))
    requires forall w :: IsConflict(d, ShipFreeze(w)) ==> HasCard(cards, ShipFreeze(w))
    requires forall x, y :: IsConflict(d, Mutual(x, y)) ==> HasCard(cards, Mutual(x, y))
    requires forall i :: IsConflict(d, Blocked(i)) ==> HasCard(cards, Blocked(i))
    requires forall x, y :: IsConflict(d, BlocksShip(x, y)) ==> HasCard(cards, BlocksShip(x, y))
    requires forall w :: FrictionCovered(d, cards, w)
    ensures forall id :: IsConflict(d, id) ==> HasCard(cards, id)
  {
    forall id | IsConflict(d, id) ensures HasCard(cards, id) {
      match id
      case Friction(w) => assert FrictionCovered(d, cards, w);
      case Stale(w) => assert FrictionCovered(d, cards, w);
      case Ci(w) => assert FrictionCovered(d, cards, w);
      case _ =>
    }
  }

  lemma FiveJoined(d: Scene, a: seq<Card>, b: seq<Card>, c: seq<Card>, e: seq<Card>, f: seq<Card>)
    ensures Sound(d, a) && Sound(d, b) && Sound(d, c) && Sound(d, e) && Sound(d, f) ==> Sound(d, a + b + c + e + f)
    ensures forall id :: HasCard(a, id) || HasCard(b, id) || HasCard(c, id) || HasCard(e, id) || HasCard(f, id) ==>
              HasCard(a + b + c + e + f, id)
  {
    JoinedCards(d, a, b);
    JoinedCards(d, a + b, c);
    JoinedCards(d, a + b + c, e);
    JoinedCards(d, a + b + c + e, f);
  }

  lemma FrictionStaysCovered(d: Scene, some: seq<Card>, all: seq<Card>)
    requires (forall w :: FrictionCovered(d, some, w)) && forall id :: HasCard(some, id) ==> HasCard(all, id)
    ensures forall w :: FrictionCovered(d, all, w)
  {
    forall w ensures FrictionCovered(d, all, w) {
      assert FrictionCovered(d, some, w);
    }
  }

  /** The cards in the order in which they are pushed. */
  method PushedCards(d: Scene) returns (cards: seq<Card>)
    ensures DistinctNodes(d.nodes) ==> Sound(d, cards) && forall id :: IsConflict(d, id) ==> HasCard(cards, id)
  {
    var intents := Intents(d.nodes);
    var about := IndexIntents(d, intents);
    var owners := OwnerCards(d, about);
    var blockCards := BlockCards(d, about);
    var open := OpenBlockerCards(d, intents);
    var friction := AllFrictionCards(d, about);
    cards := owners + blockCards.0 + open + blockCards.1 + friction;
    FiveJoined(d, owners, blockCards.0, open, blockCards.1, friction);
    if DistinctNodes(d.nodes) {
      ClaimsCovered(d, about, owners);
      BlockedCovered(d, intents, open);
      FrictionStaysCovered(d, friction, cards);
      AllCovered(d, cards);
    }
  }

  /** Mutual blocks, and blocks of something about to ship. */
  method BlockCards(d: Scene, about: Index) returns (cards: (seq<Card>, seq<Card>))
    ensures Indexes(d, about) ==> Sound(d, cards.0) && Sound(d, cards.1)
    ensures forall x, y :: IsConflict(d, Mutual(x, y)) ==> HasCard(cards.0, Mutual(x, y))
    ensures Indexes(d, about) ==> forall x, y :: IsConflict(d, BlocksShip(x, y)) ==> HasCard(cards.1, BlocksShip(x, y))
  {
    ghost var at;
    var blocks;
    blocks, at := BlockEdges(d);
    var mutual := MutualCards(d, about, blocks, at);
    var ships := BlocksShipCards(d, about, blocks, at);
    MutualCovered(d, blocks, at, mutual);
    if Indexes(d, about) {
      BlocksShipCovered(d, about, blocks, at, ships);
    }
    return (mutual, ships);
  }

  /**
   * The conflicts of a scene, most severe first and no id text twice. When no two nodes share an id, the cards are
   * those of the reference definition, one for every id text.
   */
  method DetectConflicts(d: Scene) returns (out: seq<Card>)
    ensures SortedBy(out, BySeverity(d.tenant)) && DistinctTexts(d.tenant, out)
    ensures DistinctNodes(d.nodes) ==> Exact(d, out)
  {
    var cards := PushedCards(d);
    var kept := KeepFirst(d.tenant, cards);
    SortedCards(d.tenant, kept);
    out := Sort(kept, BySeverity(d.tenant));
    SameTexts(d.tenant, kept, out);
    CardsCarry(d.tenant, cards);
  }

  lemma SameTexts(tenant: string, a: seq<Card>, b: seq<Card>)
    requires forall c :: c in b <==> c in a
    ensures forall text :: Carries(tenant, b, text) <==> Carries(tenant, a, text)
  {
  }

  lemma CardsCarry(tenant: string, cards: seq<Card>)
    ensures forall id :: HasCard(cards, id) ==> Carries(tenant, cards, Render(tenant, id))
  {
  }

  // --- What the kinds of cards mean -------------------------------------------------

  ghost predicate Reports(cards: seq<Card>, kind: Kind, work: string) {
    exists c :: c in cards && c.kind == kind && c.nodeIds != [] && c.nodeIds[0] == work &&
        (c.id == Owners(work) || c.id == ShipFreeze(work))
  }

  lemma ClaimCardKind(d: Scene, c: Card, work: string)
    requires IsConflict(d, c.id) && SaysWhat(d, c) && (c.id == Owners(work) || c.id == ShipFreeze(work))
    ensures c.nodeIds != [] && c.nodeIds[0] == work && (SeveralOwners(d, work) || Contradictory(d, work))
    ensures c.kind == if Contradictory(d, work) then ShipVsFreeze else DualOwners
  {
  }

  lemma Reported(d: Scene, cards: seq<Card>, c: Card, work: string)
    requires OnePerConflict(d, cards) && c in cards && (c.id == Owners(work) || c.id == ShipFreeze(work))
    ensures Reports(cards, if Contradictory(d, work) then ShipVsFreeze else DualOwners, work)
  {
    assert IsConflict(d, c.id) && Describes(d, c);
    ClaimCardKind(d, c, work);
  }

  /** Where claims conflict there is one report of one kind, and elsewhere none. */
  lemma ReportedClaims(d: Scene, cards: seq<Card>, work: string)
    requires OnePerConflict(d, cards) && (SeveralOwners(d, work) || Contradictory(d, work))
    ensures Reports(cards, if Contradictory(d, work) then ShipVsFreeze else DualOwners, work)
  {
    var id := if SeveralOwners(d, work) then Owners(work) else ShipFreeze(work);
    assert IsConflict(d, id) && HasCard(cards, id);
    var c :| c in cards && c.id == id;
    Reported(d, cards, c, work);
  }

  lemma ReportMeans(d: Scene, cards: seq<Card>, kind: Kind, work: string)
    requires OnePerConflict(d, cards) && Reports(cards, kind, work)
    ensures (SeveralOwners(d, work) || Contradictory(d, work)) && kind == if Contradictory(d, work) then ShipVsFreeze
        else DualOwners
  {
    var c :| c in cards && c.kind == kind && (c.id == Owners(work) || c.id == ShipFreeze(work));
    assert IsConflict(d, c.id) && Describes(d, c);
    ClaimCardKind(d, c, work);
  }

  /** Opposite claims are reported exactly where both types are claimed, competing owners where they are not. */
  lemma ClaimKindsIff(d: Scene, cards: seq<Card>, work: string)
    requires OnePerConflict(d, cards)
    ensures Reports(cards, ShipVsFreeze, work) <==> Contradictory(d, work)
    ensures Reports(cards, DualOwners, work) <==> SeveralOwners(d, work) && !Contradictory(d, work)
  {
    if SeveralOwners(d, work) || Contradictory(d, work) {
      ReportedClaims(d, cards, work);
    }
    if Reports(cards, ShipVsFreeze, work) {
      ReportMeans(d, cards, ShipVsFreeze, work);
    }
    if Reports(cards, DualOwners, work) {
      ReportMeans(d, cards, DualOwners, work);
    }
  }

  /** A mutual block is reported, in one direction or the other, exactly when active edges block both ways. */
  lemma MutualIff(d: Scene, cards: seq<Card>, x: string, y: string)
    requires OnePerConflict(d, cards) && x != y
    ensures HasCard(cards, Mutual(x, y)) || HasCard(cards, Mutual(y, x)) <==>
            (exists j :: BlockAt(d, j, x, y)) && (exists k :: BlockAt(d, k, y, x))
  {
    assert HasCard(cards, Mutual(x, y)) <==> IsConflict(d, Mutual(x, y));
    assert HasCard(cards, Mutual(y, x)) <==> IsConflict(d, Mutual(y, x));
    if j, k :| BlockAt(d, j, x, y) && BlockAt(d, k, y, x) {
      assert j < k || k < j;
    }
  }
}
