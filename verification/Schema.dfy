/** What kinds of nodes the edges of the graph join, and whose access rules everything carries. */
module Schema {
  import opened EventMapping
  import opened GraphModel
  import opened GraphOps
  import opened Projection
  import Text

  predicate IsA(kind: string, id: string) {
    kind + ":" <= id
  }

  predicate IsWork(id: string) {
    IsA("pr", id) || IsA("issue", id)
  }

  /** The type of a node shows in its id. */
  predicate NodeFits(n: Node) {
    match n.nodeType
    case "Person" => IsA("person", n.nodeId)
    case "Repo" => IsA("repo", n.nodeId)
    case "PullRequest" => IsA("pr", n.nodeId)
    case "Issue" => IsA("issue", n.nodeId)
    case "Team" => IsA("team", n.nodeId)
    case "Channel" => IsA("channel", n.nodeId)
    case "Commit" => IsA("commit", n.nodeId)
    case "Intent" => IsA("intent", n.nodeId)
    case _ => false
  }

  /** Which kinds of nodes an edge joins, and in which direction. */
  predicate EdgeFits(e: Edge) {
    match e.edgeType
    case "AUTHORED" => IsA("person", e.fromId) && (IsWork(e.toId) || IsA("commit", e.toId))
    case "BELONGS_TO" => IsA("pr", e.fromId) && IsA("repo", e.toId)
    case "BLOCKS" => IsWork(e.fromId) && IsWork(e.toId)
    case "ASSIGNED_TO" => IsA("issue", e.fromId) && IsA("person", e.toId)
    case "MEMBER_OF" => IsA("person", e.fromId) && IsA("team", e.toId)
    case "PUSHED_TO" => IsA("person", e.fromId) && IsA("repo", e.toId)
    case "CHECKED" => IsA("person", e.fromId) && IsA("repo", e.toId)
    case "DISCUSSED_IN" => IsA("person", e.fromId) && IsA("channel", e.toId)
    case "CLAIMS" => IsA("person", e.fromId) && IsA("intent", e.toId)
    case "ABOUT" => IsA("intent", e.fromId) && IsWork(e.toId)
    case _ => false
  }

  /** Nodes carry the access rules of their event, except that people and teams are public. */
  predicate NodeCarries(ev: Event, n: Node) {
    n.allowedGroups == ev.acl.allowedGroups && n.aclVersion == ev.acl.version &&
    (n.isPrivate <==> ev.acl.isPrivate && n.nodeType != "Person" && n.nodeType != "Team")
  }

  /** Edges carry them too, and are valid from the time of their event on. */
  predicate EdgeCarries(ev: Event, e: Edge) {
    e.isPrivate == ev.acl.isPrivate && e.allowedGroups == ev.acl.allowedGroups && e.aclVersion == ev.acl.version &&
    e.validFrom == ev.timestamp && e.validTo == None && e.eventId == ev.eventId
  }

  ghost predicate NodesOk(ev: Event, ns: seq<Node>) {
    forall n :: n in ns ==> NodeFits(n) && NodeCarries(ev, n)
  }

  ghost predicate EdgesOk(ev: Event, es: seq<Edge>) {
    forall e :: e in es ==> EdgeFits(e) && EdgeCarries(ev, e)
  }

  ghost predicate MutationOk(ev: Event, m: Mutation) {
    NodesOk(ev, m.nodes) && EdgesOk(ev, m.edges)
  }

  // --- The pieces -------------------------------------------------------------------

  lemma PeopleOk(ev: Event, key: string)
    ensures NodesOk(ev, [PersonNode(ev)]) && NodesOk(ev, [PersonNodeForKey(ev, key)])
    ensures IsA("person", PersonNode(ev).nodeId) && IsA("person", PersonNodeForKey(ev, key).nodeId)
  {
    assert IsA("person", "person:unknown") && IsA("person", "person:" + ev.actor.globalUserId);
  }

  lemma OwnerIsPerson(base: Mutation, ev: Event)
    requires NodesOk(ev, base.nodes) && FindPerson(base.nodes).Some?
    ensures IsA("person", FindPerson(base.nodes).value.nodeId)
  {
    FindPersonFinds(base.nodes);
  }

  lemma {:induction false} FindPersonFinds(ns: seq<Node>)
    ensures FindPerson(ns).Some? ==> FindPerson(ns).value in ns && FindPerson(ns).value.nodeType == "Person"
  {
    if ns != [] {
      FindPersonFinds(ns[1..]);
    }
  }

  lemma AttachOk(rules: Rules, ev: Event, about: Node, owner: string)
    requires IsA("person", owner) && IsWork(about.nodeId)
    ensures MutationOk(ev, AttachIntent(rules, ev, about, owner))
  {
  }

  lemma MergeIntentOk(rules: Rules, base: Mutation, ev: Event, aboutId: string)
    requires MutationOk(ev, base) && IsWork(aboutId)
    ensures MutationOk(ev, MergeIntent(rules, base, ev, aboutId))
  {
    FindNodeFinds(base.nodes, aboutId);
    var about := FindNode(base.nodes, aboutId);
    if about.Some? && !Text.EqIgnoreCase(about.value.nodeType, "Commit") {
      var person := FindPerson(base.nodes);
      if person.Some? {
        OwnerIsPerson(base, ev);
        AttachOk(rules, ev, about.value, person.value.nodeId);
      } else {
        AttachOk(rules, ev, about.value, ProviderPersonId(ev.actor.providerUserId));
        AttachOk(rules, ev, about.value, PersonId(ev.actor.globalUserId));
      }
    }
  }

  lemma {:induction false} BlockEdgesOk(ev: Event, src: string, targets: seq<Json>)
    requires IsWork(src)
    ensures EdgesOk(ev, BlockEdges(ev, src, targets))
  {
    if targets != [] {
      BlockEdgesOk(ev, src, targets[1..]);
    }
  }

  lemma PullRequestOk(rules: Rules, ev: Event)
    ensures MutationOk(ev, MapPullRequest(rules, ev))
  {
    var person, repo, pr := PersonNode(ev), RepoNode(ev, RepoResource(ev)), PrNode(ev);
    PeopleOk(ev, "");
    assert person in [person];
    var blocks := BlockEdges(ev, pr.nodeId, Items(ev.attributes.Get("blocks")));
    BlockEdgesOk(ev, pr.nodeId, Items(ev.attributes.Get("blocks")));
    var own := [EventEdge(ev, "AUTHORED", person.nodeId, pr.nodeId, NoProps),
                StableEdge(ev, "BELONGS_TO", pr.nodeId, repo.nodeId, NoProps)];
    assert EdgesOk(ev, own + blocks) by {
      assert forall e :: e in own + blocks ==> e in own || e in blocks;
    }
    MergeIntentOk(rules, Mutation([person, repo, pr], own + blocks, [LifecycleState(ev)]), ev, pr.nodeId);
  }

  lemma AssignedIssueOk(rules: Rules, ev: Event, key: string)
    requires AssigneeKey(ev.attributes) == Some(key)
    ensures MutationOk(ev, MapIssue(rules, ev))
  {
    var person, issue, assignee := PersonNode(ev), IssueNode(ev), PersonNodeForKey(ev, key);
    PeopleOk(ev, key);
    assert person in [person] && assignee in [assignee];
    var edges := [EventEdge(ev, "AUTHORED", person.nodeId, issue.nodeId, NoProps),
                  StableEdge(ev, "ASSIGNED_TO", issue.nodeId, assignee.nodeId, JObj(map["assignee_key" := JStr(key)]))];
    assert EdgesOk(ev, edges) && NodesOk(ev, [person, issue, assignee]);
    MergeIntentOk(rules, Mutation([person, issue, assignee], edges, [StatusState(ev)]), ev, issue.nodeId);
  }

  lemma UnassignedIssueOk(rules: Rules, ev: Event)
    requires AssigneeKey(ev.attributes) == None
    ensures MutationOk(ev, MapIssue(rules, ev))
  {
    var person, issue := PersonNode(ev), IssueNode(ev);
    PeopleOk(ev, "");
    assert person in [person];
    var authored := EventEdge(ev, "AUTHORED", person.nodeId, issue.nodeId, NoProps);
    var edges :=
      if Text.Contains(Text.Lower(ev.eventType), "assign")
      then [authored, StableEdge(ev, "ASSIGNED_TO", issue.nodeId, person.nodeId, NoProps)]
      else [authored];
    assert EdgesOk(ev, edges) && NodesOk(ev, [person, issue]);
    MergeIntentOk(rules, Mutation([person, issue], edges, [StatusState(ev)]), ev, issue.nodeId);
  }

  lemma IssueOk(rules: Rules, ev: Event)
    ensures MutationOk(ev, MapIssue(rules, ev))
  {
    match AssigneeKey(ev.attributes)
    case Some(key) => AssignedIssueOk(rules, ev, key);
    case None => UnassignedIssueOk(rules, ev);
  }

  lemma CommitOk(ev: Event, repo: string, sha: string, msg: string)
    ensures var n := CommitNode(ev, repo, sha, msg); IsA("commit", n.nodeId) && NodeFits(n) && NodeCarries(ev, n)
  {
    assert "commit:" + repo + ":" + sha == "commit:" + (repo + ":" + sha);
  }

  lemma {:induction false} CommitsOk(ev: Event, repo: string, commits: seq<Json>)
    ensures forall n :: n in CommitNodes(ev, repo, commits) ==>
        IsA("commit", n.nodeId) && NodeFits(n) && NodeCarries(ev, n)
  {
    if commits != [] {
      CommitsOk(ev, repo, commits[1..]);
      CommitOk(ev, repo, TextOr(commits[0], ["id"], ""), TextOr(commits[0], ["message"], ""));
    }
  }

  lemma {:induction false} AuthoredOk(ev: Event, person: string, commits: seq<Node>)
    requires IsA("person", person) && forall n :: n in commits ==> IsA("commit", n.nodeId)
    ensures EdgesOk(ev, AuthoredEdges(ev, person, commits))
  {
    if commits != [] {
      AuthoredOk(ev, person, commits[1..]);
    }
  }

  lemma PushedOk(ev: Event, person: string, repo: string, props: Json)
    requires IsA("person", person)
    ensures var e := EventEdge(ev, "PUSHED_TO", person, RepoNode(ev, repo).nodeId, props);
            EdgeFits(e) && EdgeCarries(ev, e)
    ensures var n := RepoNode(ev, repo); NodeFits(n) && NodeCarries(ev, n)
  {
  }

  lemma JoinedOk(ev: Event, person: Node, repo: Node, commits: seq<Node>, pushed: Edge, authored: seq<Edge>)
    requires NodesOk(ev, [person]) && NodesOk(ev, commits) && NodeFits(repo) && NodeCarries(ev, repo)
    requires EdgesOk(ev, authored) && EdgeFits(pushed) && EdgeCarries(ev, pushed)
    ensures MutationOk(ev, Mutation([person, repo] + commits, [pushed] + authored, []))
  {
    assert person in [person];
  }

  lemma PushOk(ev: Event)
    ensures MutationOk(ev, MapPush(ev))
  {
    var res := PushRepo(ev);
    if res != "" {
      var person, repo := PersonNode(ev), RepoNode(ev, res);
      var items := Items(ev.attributes.Get("commits"));
      var commits := CommitNodes(ev, res, if |items| <= 20 then items else items[..20]);
      var m := MapPush(ev);
      PeopleOk(ev, "");
      CommitsOk(ev, res, if |items| <= 20 then items else items[..20]);
      AuthoredOk(ev, person.nodeId, commits);
      PushedOk(ev, person.nodeId, res, m.edges[0].properties);
      JoinedOk(ev, person, repo, commits, m.edges[0], AuthoredEdges(ev, person.nodeId, commits));
      assert m == Mutation([person, repo] + commits, [m.edges[0]] + AuthoredEdges(ev, person.nodeId, commits), []);
    }
  }

  lemma TeamOk(ev: Event)
    ensures MutationOk(ev, MapTeamMembership(ev))
  {
    PeopleOk(ev, "");
    assert PersonNode(ev) in [PersonNode(ev)];
  }

  lemma CheckOk(ev: Event)
    ensures MutationOk(ev, MapCheck(ev))
  {
    PeopleOk(ev, "");
    assert PersonNode(ev) in [PersonNode(ev)];
  }

  lemma ChannelOk(ev: Event)
    ensures MutationOk(ev, MapCommunication(ev))
  {
    PeopleOk(ev, "");
    assert PersonNode(ev) in [PersonNode(ev)];
  }

  lemma BlockerOk(ev: Event)
    ensures MutationOk(ev, MapBlockerHint(ev))
  {
  }

  /** Every event of every kind writes nodes and edges that fit the schema and carry the event's access rules. */
  lemma MapEventOk(rules: Rules, ev: Event, route: Route)
    ensures MutationOk(ev, MapBy(rules, ev, route))
  {
    match route
    case PullRequest => PullRequestOk(rules, ev);
    case Team => TeamOk(ev);
    case Issue => IssueOk(rules, ev);
    case Push => PushOk(ev);
    case Check => CheckOk(ev);
    case Channel => ChannelOk(ev);
    case BlockerHint => BlockerOk(ev);
    case Unmapped =>
  }

  // --- Whole runs -------------------------------------------------------------------

  ghost predicate GraphFits(g: Graph) {
    (forall k :: k in g.nodes ==> NodeFits(g.nodes[k])) && forall t, e :: t in g.edges && e in g.edges[t] ==>
        EdgeFits(e)
  }

  lemma {:induction false} PutNodesFrom(m: map<(string, string), Node>, ns: seq<Node>, k: (string, string))
    requires k in PutNodes(m, ns)
    ensures (k in m && PutNodes(m, ns)[k] == m[k]) || PutNodes(m, ns)[k] in ns
    decreases |ns|
  {
    if ns != [] {
      PutNodesFrom(m[NodeKey(ns[0]) := ns[0]], ns[1..], k);
    }
  }

  lemma ApplyKeepsFit(g: Graph, ev: Event, m: Mutation)
    requires GraphFits(g) && MutationOk(ev, m)
    ensures GraphFits(Apply(g, m))
  {
    forall k | k in Apply(g, m).nodes ensures NodeFits(Apply(g, m).nodes[k]) {
      PutNodesFrom(g.nodes, m.nodes, k);
    }
    forall t, e | t in Apply(g, m).edges && e in Apply(g, m).edges[t] ensures EdgeFits(e) {
      PutEdgesFrom(g.edges, m.edges, t, e);
    }
  }

  /**
   * In the graph of every run each node has the type its id says, and each edge joins the right kinds the right way
   * round.
   */
  lemma {:induction false} RunFitsSchema(rules: Rules, inputs: seq<Input>)
    ensures GraphFits(Run(rules, EmptySystem, inputs).graph)
  {
    if inputs != [] {
      var before, i := Run(rules, EmptySystem, inputs[..|inputs| - 1]), inputs[|inputs| - 1];
      RunFitsSchema(rules, inputs[..|inputs| - 1]);
      if i.Ev? && IdOf(i) !in before.graph.applied {
        MapEventOk(rules, i.event, RouteOf(i.event));
        ApplyKeepsFit(MarkInput(before, i).graph, i.event, MapEvent(rules, i.event));
      }
    }
  }
}
