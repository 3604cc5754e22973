/** Data model of the context graph and the access rule every read goes through. */
module GraphModel {
  import opened Sorting

  datatype Option<+T> = None | Some(value: T)

  /** JSON values (`serde_json::Value`), numbers reduced to integers. */
  datatype Json =
    | JNull
    | JBool(b: bool)
    | JNum(n: int)
    | JStr(s: string)
    | JArr(items: seq<Json>)
    | JObj(fields: map<string, Json>)
  {
    function Get(key: string): Option<Json> {
      if JObj? && key in fields then Some(fields[key]) else None
    }

    /** The string under `key`, when there is one. */
    function Str(key: string): Option<string> {
      match Get(key)
      case Some(JStr(v)) => Some(v)
      case _ => None
    }

    function Bool(key: string): Option<bool> {
      match Get(key)
      case Some(JBool(v)) => Some(v)
      case _ => None
    }
  }

  /** The first of `keys` that is present. */
  function FirstPresent(j: Json, keys: seq<string>): Option<Json> {
    if keys == [] then None
    else if j.Get(keys[0]).Some? then j.Get(keys[0])
    else FirstPresent(j, keys[1..])
  }

  /** The string under the first present key; the default when there is none or it is no string. */
  function TextOr(j: Json, keys: seq<string>, default: string): string {
    match FirstPresent(j, keys)
    case Some(JStr(s)) => s
    case _ => default
  }

  datatype Node = Node(
    tenantId: string, nodeId: string, nodeType: string, displayName: string, resourceId: string,
    properties: Json, isPrivate: bool, allowedGroups: seq<string>, aclVersion: nat)

  /** Times are instants on an integer time line. */
  datatype Edge = Edge(
    tenantId: string, edgeId: string, edgeType: string, fromId: string, toId: string,
    validFrom: int, validTo: Option<int>, eventId: string,
    properties: Json, isPrivate: bool, allowedGroups: seq<string>, aclVersion: nat)

  datatype EntityState = EntityState(
    tenantId: string, nodeId: string, stateKey: string, stateValue: string,
    asOf: int, eventId: string, isPrivate: bool, allowedGroups: seq<string>)

  datatype Mutation = Mutation(nodes: seq<Node>, edges: seq<Edge>, states: seq<EntityState>)

  datatype QueryContext = QueryContext(tenantId: string, userId: string, groupIds: seq<string>)

  /** Public, or the allow-list meets the caller's groups; nothing without a tenant. */
  predicate AclAllows(ctx: QueryContext, isPrivate: bool, allowed: seq<string>) {
    ctx.tenantId != "" && (isPrivate ==> exists g :: g in allowed && g in ctx.groupIds)
  }

  predicate VisibleNode(ctx: QueryContext, n: Node) {
    n.tenantId == ctx.tenantId && AclAllows(ctx, n.isPrivate, n.allowedGroups)
  }

  predicate VisibleEdge(ctx: QueryContext, e: Edge) {
    e.tenantId == ctx.tenantId && AclAllows(ctx, e.isPrivate, e.allowedGroups)
  }

  predicate ActiveEdge(e: Edge, now: int) {
    e.validFrom <= now && (e.validTo.Some? ==> e.validTo.value > now)
  }

  /** The contents of a graph store. */
  datatype Graph = Graph(
    applied: set<(string, string)>,
    nodes: map<(string, string), Node>,
    edges: map<string, seq<Edge>>,
    states: map<(string, string, string), EntityState>)

  const EmptyGraph := Graph({}, map[], map[], map[])

  function ListFor(m: map<string, seq<Edge>>, tenant: string): seq<Edge> {
    if tenant in m then m[tenant] else []
  }

  function VisibleTo(ctx: QueryContext): Edge -> bool {
    e => VisibleEdge(ctx, e)
  }

  function ActiveAt(now: int): Edge -> bool {
    e => ActiveEdge(e, now)
  }

  /** Everything of a graph that a caller is allowed to see. */
  datatype View = View(nodes: map<string, Node>, edges: seq<Edge>)

  function ViewOf(g: Graph, ctx: QueryContext): View {
    View(
      map k | k in g.nodes && k.0 == ctx.tenantId && VisibleNode(ctx, g.nodes[k]) :: k.1 := g.nodes[k],
      Filter(ListFor(g.edges, ctx.tenantId), VisibleTo(ctx)))
  }

  /** Edges seen by traversals: visible and active at `now`. */
  function LiveEdges(v: View, now: int): seq<Edge> {
    Filter(v.edges, ActiveAt(now))
  }
}
