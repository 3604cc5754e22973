/** What every event says, as relations between people, work and places, and which of it a run keeps. */
module Facts {
  import opened EventMapping
  import opened GraphModel
  import opened GraphOps
  import opened Projection
  import opened Recorded
  import opened SqlStore
  import Text

  // --- The event types --------------------------------------------------------------

  predicate Starts(text: string, words: set<string>) {
    exists w | w in words :: w <= text
  }

  predicate Says(text: string, words: set<string>) {
    exists w | w in words :: Text.Contains(text, w)
  }

  /** What the event's type, as written or in lower case, and its category say about the kind of event. */
  predicate Fits(ev: Event, r: Route) {
    var et := Text.Lower(ev.eventType);
    match r
    case PullRequest => Starts(ev.eventType, {"pull_request."}) || Says(ev.eventType, {"merge_request."})
    case Team =>
      (Text.EqIgnoreCase(ev.category, "identity") || Says(et, {"identity"}) || (Says(et, {"member"}) &&
          !Says(et, {"comment"}))) &&
      TeamName(ev) != "" && !Says(et, {"remove", "left", "deleted"})
    case Issue =>
      Starts(ev.eventType, {"issue.", "linear."}) || Says(et, {"jira:", "issue.assigned", "issue_assigned"})
    case Push => Starts(ev.eventType, {"push"})
    case Check =>
      Starts(ev.eventType, {"check_suite.", "check_run.", "status.", "workflow_run.", "deployment.", "branch."})
    case Channel => Starts(ev.eventType, {"slack.", "teams."})
    case BlockerHint => Says(et, {"block"})
    case Unmapped => true
  }

  function TeamName(ev: Event): string {
    TextOr(ev.attributes, ["team", "group_name", "group_id", "channel", "org"], "")
  }

  /** Lower comes first. */
  function Turn(r: Route): nat {
    match r
    case PullRequest => 0
    case Team => 1
    case Issue => 2
    case Push => 3
    case Check => 4
    case Channel => 5
    case BlockerHint => 6
    case Unmapped => 7
  }

  lemma OneWord(text: string, w: string)
    ensures Starts(text, {w}) <==> w <= text
    ensures Says(text, {w}) <==> Text.Contains(text, w)
  {
    assert w in {w};
  }

  lemma FitsPullRequest(ev: Event)
    ensures Fits(ev, PullRequest) <==> IsPullRequest(ev)
  {
    OneWord(ev.eventType, "pull_request.");
    OneWord(ev.eventType, "merge_request.");
  }

  lemma LeavesMeans(et: string)
    ensures Leaves(et) <==> Says(et, {"remove", "left", "deleted"})
  {
    assert Text.Contains(et, "remove") ==> Says(et, {"remove", "left", "deleted"});
    assert Text.Contains(et, "left") ==> Says(et, {"remove", "left", "deleted"});
    assert Text.Contains(et, "deleted") ==> Says(et, {"remove", "left", "deleted"});
  }

  lemma FitsTeam(ev: Event)
    ensures Fits(ev, Team) <==>
              IsIdentity(ev) && (MapTeamMembership(ev).nodes != [] || MapTeamMembership(ev).edges != [])
  {
    var et := Text.Lower(ev.eventType);
    OneWord(et, "identity");
    OneWord(et, "member");
    OneWord(et, "comment");
    LeavesMeans(et);
  }

  lemma FitsIssue(ev: Event)
    ensures Fits(ev, Issue) <==> IsIssue(ev)
  {
    var et, words := Text.Lower(ev.eventType), {"jira:", "issue.assigned", "issue_assigned"};
    assert "issue." <= ev.eventType ==> Starts(ev.eventType, {"issue.", "linear."});
    assert "linear." <= ev.eventType ==> Starts(ev.eventType, {"issue.", "linear."});
    assert Text.Contains(et, "jira:") ==> Says(et, words);
    assert Text.Contains(et, "issue.assigned") ==> Says(et, words);
    assert Text.Contains(et, "issue_assigned") ==> Says(et, words);
  }

  lemma FitsCheck(ev: Event)
    ensures Fits(ev, Check) <==> IsCheck(ev.eventType)
  {
    var et := ev.eventType;
    var words := {"check_suite.", "check_run.", "status.", "workflow_run.", "deployment.", "branch."};
    assert "check_suite." <= et ==> Starts(et, words);
    assert "check_run." <= et ==> Starts(et, words);
    assert "status." <= et ==> Starts(et, words);
    assert "workflow_run." <= et ==> Starts(et, words);
    assert "deployment." <= et ==> Starts(et, words);
    assert "branch." <= et ==> Starts(et, words);
  }

  lemma FitsOthers(ev: Event)
    ensures Fits(ev, Push) <==> Text.StartsWith(ev.eventType, "push")
    ensures Fits(ev, Channel) <==> Text.StartsWith(ev.eventType, "slack.") || Text.StartsWith(ev.eventType, "teams.")
    ensures Fits(ev, BlockerHint) <==> Text.Contains(Text.Lower(ev.eventType), "block")
  {
    OneWord(ev.eventType, "push");
    assert "slack." <= ev.eventType ==> Starts(ev.eventType, {"slack.", "teams."});
    assert "teams." <= ev.eventType ==> Starts(ev.eventType, {"slack.", "teams."});
    OneWord(Text.Lower(ev.eventType), "block");
  }

  /** An event is of the first kind it fits. */
  lemma RouteIsFirstFit(ev: Event)
    ensures Fits(ev, RouteOf(ev)) && forall r: Route :: Fits(ev, r) ==> Turn(RouteOf(ev)) <= Turn(r)
  {
    FitsPullRequest(ev);
    FitsTeam(ev);
    FitsIssue(ev);
    FitsCheck(ev);
    FitsOthers(ev);
  }

  // --- What an event says -----------------------------------------------------------

  /** The array under `key` holds this string. */
  ghost predicate Names(attrs: Json, key: string, s: string) {
    match attrs.Get(key)
    case Some(JArr(items)) => JStr(s) in items
    case _ => false
  }

  /** Whatever is not the path of a pull request is taken for an issue. */
  function WorkId(resource: string): string {
    if Text.Contains(resource, "/pr/") then "pr:" + resource else "issue:" + resource
  }

  /** The id of the commit this entry of a push is about. */
  predicate IsCommitId(entry: Json, repo: string, id: string) {
    var sha := TextOr(entry, ["id"], "");
    sha != "" && id == "commit:" + repo + ":" + sha
  }

  /** One of the first twenty commits of the push. */
  ghost predicate NamesCommit(attrs: Json, repo: string, id: string) {
    match attrs.Get("commits")
    case Some(JArr(items)) => exists k :: 0 <= k < 20 && k < |items| && IsCommitId(items[k], repo, id)
    case _ => false
  }

  ghost predicate AssignedTo(ev: Event, person: string) {
    match AssigneeKey(ev.attributes)
    case Some(key) => person == PersonNodeForKey(ev, key).nodeId
    case None => Text.Contains(Text.Lower(ev.eventType), "assign") && person == PersonNode(ev).nodeId
  }

  /** The acting person works on this: author, and owner of an intent about it. */
  ghost predicate TellsOfWork(ev: Event, work: string, t: string, a: string, b: string) {
    var who := PersonNode(ev).nodeId;
    (t, a, b) == ("AUTHORED", who, work) || (t, a, b) == ("CLAIMS", who, IntentId(who, work)) ||
    (t, a, b) == ("ABOUT", IntentId(who, work), work)
  }

  /** The event says that `a` stands in relation `t` to `b`. */
  ghost predicate Tells(ev: Event, t: string, a: string, b: string) {
    TellsBy(ev, RouteOf(ev), t, a, b)
  }

  /** What an event of this kind says. */
  ghost predicate TellsBy(ev: Event, route: Route, t: string, a: string, b: string) {
    var who := PersonNode(ev).nodeId;
    match route
    case PullRequest =>
      var pr := "pr:" + PrResource(ev);
      TellsOfWork(ev, pr, t, a, b) || (t, a, b) == ("BELONGS_TO", pr, "repo:" + RepoResource(ev)) ||
      (t == "BLOCKS" && a == pr && exists s :: Names(ev.attributes, "blocks", s) && b == WorkId(s))
    case Issue =>
      var issue := "issue:" + IssueResource(ev);
      TellsOfWork(ev, issue, t, a, b) || (t == "ASSIGNED_TO" && a == issue && AssignedTo(ev, b))
    case Team =>
      (t, a, b) == ("MEMBER_OF", who, "team:" + TeamName(ev)) && TeamName(ev) != "" &&
      !Says(Text.Lower(ev.eventType), {"remove", "left", "deleted"})
    case Push =>
      var repo := PushRepo(ev);
      repo != "" && a == who &&
      ((t, b) == ("PUSHED_TO", "repo:" + repo) ||
       (t == "AUTHORED" && NamesCommit(ev.attributes, repo, b)))
    case Check =>
      var repo := RepoResource(ev);
      (t, a, b) == ("CHECKED", who, "repo:" + repo) && repo != "" &&
      (repo != ev.resourceId || Text.Contains(ev.resourceId, "/"))
    case Channel =>
      (t, a, b) == ("DISCUSSED_IN", who, "channel:" + TextOr(ev.attributes, ["channel", "conversation_id"], "unknown"))
    case BlockerHint =>
      t == "BLOCKS" &&
      exists f, s :: ev.attributes.Get("from_resource_id") == Some(JStr(f)) &&
          ev.attributes.Get("to_resource_id") == Some(JStr(s)) && a == "pr:" + f && b == "pr:" + s
    case Unmapped => false
  }

  ghost predicate Draws(es: seq<Edge>, t: string, a: string, b: string) {
    exists e :: e in es && Course(e) == (t, a, b)
  }

  lemma DrawsAppend(x: seq<Edge>, y: seq<Edge>, t: string, a: string, b: string)
    ensures Draws(x + y, t, a, b) <==> Draws(x, t, a, b) || Draws(y, t, a, b)
  {
    assert forall e :: e in x + y <==> e in x || e in y;
  }

  lemma DrawsOne(e: Edge, t: string, a: string, b: string)
    ensures Draws([e], t, a, b) <==> Course(e) == (t, a, b)
  {
    assert e in [e];
  }

  lemma DrawsTwo(es: seq<Edge>, t: string, a: string, b: string)
    requires |es| == 2
    ensures Draws(es, t, a, b) <==> Course(es[0]) == (t, a, b) || Course(es[1]) == (t, a, b)
  {
    assert es[0] in es && es[1] in es;
  }

  /** The merged intent adds the claim and what it is about. */
  lemma IntentEdges(rules: Rules, base: Mutation, ev: Event, about: Node) returns (intent: seq<Edge>)
    requires FindNode(base.nodes, about.nodeId) == Some(about) && about.nodeType in {"PullRequest", "Issue"}
    requires FindPerson(base.nodes) == Some(PersonNode(ev))
    ensures MergeIntent(rules, base, ev, about.nodeId).edges == base.edges + intent && |intent| == 2
    ensures var who := PersonNode(ev).nodeId;
            Course(intent[0]) == ("CLAIMS", who, IntentId(who, about.nodeId)) &&
            Course(intent[1]) == ("ABOUT", IntentId(who, about.nodeId), about.nodeId)
  {
    assert |Text.Lower(about.nodeType)| != |Text.Lower("Commit")|;
    intent := AttachIntent(rules, ev, about, PersonNode(ev).nodeId).edges;
  }

  lemma {:induction false} BlockEdgesSay(ev: Event, src: string, targets: seq<Json>, t: string, a: string, b: string)
    ensures Draws(BlockEdges(ev, src, targets), t, a, b) <==>
              t == "BLOCKS" && a == src && exists s :: JStr(s) in targets && b == WorkId(s)
  {
    if targets != [] {
      BlockEdgesSay(ev, src, targets[1..], t, a, b);
      assert targets == [targets[0]] + targets[1..];
      match targets[0]
      case JStr(s) =>
        var e := EventEdge(ev, "BLOCKS", src, WorkId(s), NoProps);
        assert BlockEdges(ev, src, targets) == [e] + BlockEdges(ev, src, targets[1..]);
        DrawsAppend([e], BlockEdges(ev, src, targets[1..]), t, a, b);
        DrawsOne(e, t, a, b);
        assert JStr(s) in targets;
      case _ =>
    }
  }

  /** The edges of a pull request: its own, the blocks, and what the intent adds. */
  lemma PullRequestEdges(rules: Rules, ev: Event) returns (own: seq<Edge>, intent: seq<Edge>)
    ensures MapPullRequest(rules, ev).edges ==
              own + BlockEdges(ev, "pr:" + PrResource(ev), Items(ev.attributes.Get("blocks"))) + intent
    ensures var who, pr := PersonNode(ev).nodeId, "pr:" + PrResource(ev);
            |own| == |intent| == 2 && Course(own[0]) == ("AUTHORED", who, pr) &&
            Course(own[1]) == ("BELONGS_TO", pr, "repo:" + RepoResource(ev)) &&
            Course(intent[0]) == ("CLAIMS", who, IntentId(who, pr)) &&
            Course(intent[1]) == ("ABOUT", IntentId(who, pr), pr)
  {
    var person, repo, pr := PersonNode(ev), RepoNode(ev, RepoResource(ev)), PrNode(ev);
    own := [EventEdge(ev, "AUTHORED", person.nodeId, pr.nodeId, NoProps),
            StableEdge(ev, "BELONGS_TO", pr.nodeId, repo.nodeId, NoProps)];
    var base := Mutation([person, repo, pr], own + BlockEdges(ev, pr.nodeId, Items(ev.attributes.Get("blocks"))),
                         [LifecycleState(ev)]);
    PersonFirst(ev);
    assert pr.nodeId[1] == 'r' && person.nodeId[1] == 'e' && pr.nodeId[0] == 'p' && repo.nodeId[0] == 'r';
    FindThird(person, repo, pr);
    intent := IntentEdges(rules, base, ev, pr);
  }

  lemma PullRequestSays(rules: Rules, ev: Event, t: string, a: string, b: string)
    ensures Draws(MapPullRequest(rules, ev).edges, t, a, b) <==> TellsBy(ev, PullRequest, t, a, b)
  {
    var targets := Items(ev.attributes.Get("blocks"));
    var blocks := BlockEdges(ev, "pr:" + PrResource(ev), targets);
    var own, intent := PullRequestEdges(rules, ev);
    DrawsAppend(own + blocks, intent, t, a, b);
    DrawsAppend(own, blocks, t, a, b);
    DrawsTwo(own, t, a, b);
    DrawsTwo(intent, t, a, b);
    BlockEdgesSay(ev, "pr:" + PrResource(ev), targets, t, a, b);
    assert forall s :: Names(ev.attributes, "blocks", s) <==> JStr(s) in targets;
  }

  lemma PersonFirst(ev: Event)
    ensures "person:" <= PersonNode(ev).nodeId && PersonNode(ev).nodeType == "Person"
  {
  }

  lemma FindThird(person: Node, repo: Node, pr: Node)
    requires person.nodeId != pr.nodeId && repo.nodeId != pr.nodeId && person.nodeType == "Person"
    ensures FindNode([person, repo, pr], pr.nodeId) == Some(pr) && FindPerson([person, repo, pr]) == Some(person)
  {
    assert [person, repo, pr][1..] == [repo, pr] && [repo, pr][1..] == [pr];
    assert FindNode([pr], pr.nodeId) == Some(pr);
  }

  /** The nodes and edges of an issue before its intent is attached. */
  lemma IssueOwn(ev: Event) returns (nodes: seq<Node>, own: seq<Edge>)
    ensures FindNode(nodes, IssueNode(ev).nodeId) == Some(IssueNode(ev)) && FindPerson(nodes) == Some(PersonNode(ev))
    ensures forall rules: Rules :: MapIssue(rules, ev) ==
              MergeIntent(rules, Mutation(nodes, own, [StatusState(ev)]), ev, IssueNode(ev).nodeId)
    ensures 1 <= |own| <= 2 && Course(own[0]) == ("AUTHORED", PersonNode(ev).nodeId, IssueNode(ev).nodeId)
    ensures |own| == 2 ==> own[1].edgeType == "ASSIGNED_TO" && own[1].fromId == IssueNode(ev).nodeId
    ensures forall b :: AssignedTo(ev, b) <==> |own| == 2 && own[1].toId == b
  {
    var person, issue := PersonNode(ev), IssueNode(ev);
    var authored := EventEdge(ev, "AUTHORED", person.nodeId, issue.nodeId, NoProps);
    nodes, own := [person, issue], [authored];
    PersonFirst(ev);
    assert issue.nodeId[0] == 'i' && person.nodeId[0] == 'p';
    match AssigneeKey(ev.attributes) {
      case Some(key) =>
        var assignee := PersonNodeForKey(ev, key);
        nodes := [person, issue, assignee];
        own := [authored, StableEdge(ev, "ASSIGNED_TO", issue.nodeId, assignee.nodeId,
                    JObj(map["assignee_key" := JStr(key)]))];
      case None =>
        if Text.Contains(Text.Lower(ev.eventType), "assign") {
          own := [authored, StableEdge(ev, "ASSIGNED_TO", issue.nodeId, person.nodeId, NoProps)];
        }
    }
    assert nodes[1..][0] == issue && nodes[0] == person;
  }

  lemma IssueEdges(rules: Rules, ev: Event) returns (own: seq<Edge>, intent: seq<Edge>)
    ensures MapIssue(rules, ev).edges == own + intent && |intent| == 2
    ensures var who, issue := PersonNode(ev).nodeId, "issue:" + IssueResource(ev);
            Course(intent[0]) == ("CLAIMS", who, IntentId(who, issue)) &&
            Course(intent[1]) == ("ABOUT", IntentId(who, issue), issue) &&
            1 <= |own| <= 2 && Course(own[0]) == ("AUTHORED", who, issue) &&
            (|own| == 2 ==> own[1].edgeType == "ASSIGNED_TO" && own[1].fromId == issue)
    ensures forall b :: AssignedTo(ev, b) <==> |own| == 2 && own[1].toId == b
  {
    var nodes;
    nodes, own := IssueOwn(ev);
    intent := IntentEdges(rules, Mutation(nodes, own, [StatusState(ev)]), ev, IssueNode(ev));
  }

  lemma IssueSays(rules: Rules, ev: Event, t: string, a: string, b: string)
    ensures Draws(MapIssue(rules, ev).edges, t, a, b) <==> TellsBy(ev, Issue, t, a, b)
  {
    var own, intent := IssueEdges(rules, ev);
    DrawsAppend(own, intent, t, a, b);
    DrawsTwo(intent, t, a, b);
    if |own| == 2 {
      DrawsTwo(own, t, a, b);
    } else {
      OneEdgeSays(own, t, a, b);
    }
    assert AssignedTo(ev, b) <==> |own| == 2 && own[1].toId == b;
  }

  ghost predicate HasCommit(commits: seq<Json>, repo: string, id: string) {
    exists k :: 0 <= k < |commits| && IsCommitId(commits[k], repo, id)
  }

  lemma HasCommitFirst(commits: seq<Json>, repo: string, id: string)
    requires commits != []
    ensures HasCommit(commits, repo, id) <==> IsCommitId(commits[0], repo, id) || HasCommit(commits[1..], repo, id)
  {
    if k :| 0 <= k < |commits[1..]| && IsCommitId(commits[1..][k], repo, id) {
      assert IsCommitId(commits[k + 1], repo, id);
    }
    if k :| 0 < k < |commits| && IsCommitId(commits[k], repo, id) {
      assert IsCommitId(commits[1..][k - 1], repo, id);
    }
  }

  lemma {:induction false} CommitNodesSay(ev: Event, repo: string, commits: seq<Json>, id: string)
    ensures HasNode(CommitNodes(ev, repo, commits), id) <==> HasCommit(commits, repo, id)
  {
    if commits != [] {
      var rest := CommitNodes(ev, repo, commits[1..]);
      CommitNodesSay(ev, repo, commits[1..], id);
      HasCommitFirst(commits, repo, id);
      var sha := TextOr(commits[0], ["id"], "");
      var first := if sha == "" then [] else [CommitNode(ev, repo, sha, TextOr(commits[0], ["message"], ""))];
      assert forall n :: n in CommitNodes(ev, repo, commits) <==> n in first || n in rest;
      assert sha != "" ==> first[0] in first;
    }
  }

  lemma {:induction false} AuthoredEdgesSay(ev: Event, person: string, commits: seq<Node>, t: string, a: string,
      b: string)
    ensures Draws(AuthoredEdges(ev, person, commits), t, a, b) <==>
              t == "AUTHORED" && a == person && HasNode(commits, b)
  {
    if commits != [] {
      AuthoredEdgesSay(ev, person, commits[1..], t, a, b);
      assert commits == [commits[0]] + commits[1..];
      var es := AuthoredEdges(ev, person, commits);
      assert es == [es[0]] + AuthoredEdges(ev, person, commits[1..]);
      DrawsAppend([es[0]], AuthoredEdges(ev, person, commits[1..]), t, a, b);
      DrawsOne(es[0], t, a, b);
      assert commits[0] in commits;
    }
  }

  lemma PushSays(ev: Event, t: string, a: string, b: string)
    ensures Draws(MapPush(ev).edges, t, a, b) <==> TellsBy(ev, Push, t, a, b)
  {
    var repo, who := PushRepo(ev), PersonNode(ev).nodeId;
    if repo != "" {
      var all := Items(ev.attributes.Get("commits"));
      var items := if |all| <= 20 then all else all[..20];
      var es, authored := MapPush(ev).edges, AuthoredEdges(ev, who, CommitNodes(ev, repo, items));
      assert es == [es[0]] + authored;
      DrawsAppend([es[0]], authored, t, a, b);
      DrawsOne(es[0], t, a, b);
      CommitsSay(ev, who, repo, all, t, a, b);
    }
  }

  lemma CommitsSay(ev: Event, who: string, repo: string, all: seq<Json>, t: string, a: string, b: string)
    requires all == Items(ev.attributes.Get("commits"))
    ensures var items := if |all| <= 20 then all else all[..20];
            Draws(AuthoredEdges(ev, who, CommitNodes(ev, repo, items)), t, a, b) <==>
              t == "AUTHORED" && a == who && NamesCommit(ev.attributes, repo, b)
  {
    var items := if |all| <= 20 then all else all[..20];
    AuthoredEdgesSay(ev, who, CommitNodes(ev, repo, items), t, a, b);
    CommitNodesSay(ev, repo, items, b);
    assert NamesCommit(ev.attributes, repo, b) <==> HasCommit(items, repo, b) by {
      assert forall k :: 0 <= k < |items| ==> items[k] == all[k];
    }
  }

  lemma OneEdgeSays(es: seq<Edge>, t: string, a: string, b: string)
    requires |es| <= 1
    ensures Draws(es, t, a, b) <==> es != [] && Course(es[0]) == (t, a, b)
  {
    if es != [] {
      DrawsOne(es[0], t, a, b);
      assert es == [es[0]];
    }
  }

  lemma TeamSays(ev: Event, t: string, a: string, b: string)
    ensures Draws(MapTeamMembership(ev).edges, t, a, b) <==> TellsBy(ev, Team, t, a, b)
  {
    LeavesMeans(Text.Lower(ev.eventType));
    OneEdgeSays(MapTeamMembership(ev).edges, t, a, b);
  }

  lemma RouteSays(rules: Rules, ev: Event, route: Route, t: string, a: string, b: string)
    ensures Draws(MapBy(rules, ev, route).edges, t, a, b) <==> TellsBy(ev, route, t, a, b)
  {
    match route
    case PullRequest => PullRequestSays(rules, ev, t, a, b);
    case Issue => IssueSays(rules, ev, t, a, b);
    case Push => PushSays(ev, t, a, b);
    case Team => TeamSays(ev, t, a, b);
    case Check => OneEdgeSays(MapCheck(ev).edges, t, a, b);
    case Channel => OneEdgeSays(MapCommunication(ev).edges, t, a, b);
    case BlockerHint => OneEdgeSays(MapBlockerHint(ev).edges, t, a, b);
    case Unmapped =>
  }

  /** An event puts down exactly the relations it says. */
  lemma EdgesAreTold(rules: Rules, ev: Event, t: string, a: string, b: string)
    ensures Draws(MapEvent(rules, ev).edges, t, a, b) <==> Tells(ev, t, a, b)
  {
    RouteSays(rules, ev, RouteOf(ev), t, a, b);
  }

  // --- Whom and what an event names ---------------------------------------------------

  /** People are known by their global id, else by that of the provider, else not at all. */
  lemma ActorIs(ev: Event)
    requires !("prov:" <= ev.actor.globalUserId) && !("prov:" <= ev.actor.providerUserId)
    ensures PersonNode(ev).nodeId ==
              if ev.actor.globalUserId != "" then "person:" + ev.actor.globalUserId
              else if ev.actor.providerUserId != "" then "person:prov:" + ev.actor.providerUserId
              else "person:unknown"
  {
    var key := PersonKey(ev);
    if ev.actor.globalUserId == "" && ev.actor.providerUserId != "" {
      assert "prov:" <= key && key[5..] == ev.actor.providerUserId;
      assert StripAll(key, "prov:") == StripAll(ev.actor.providerUserId, "prov:") == ev.actor.providerUserId;
    } else if key == "unknown" {
      assert key[0] == 'u';
      assert "person:" + "unknown" == "person:unknown";
    }
  }

  /** The node of the work item carries everything the event says, for the conflict signals to read. */
  lemma WorkCarriesAttributes(rules: Rules, ev: Event)
    requires RouteOf(ev) in {PullRequest, Issue}
    ensures var work := if RouteOf(ev) == PullRequest then "pr:" + PrResource(ev) else "issue:" + IssueResource(ev);
            exists n :: n in MapEvent(rules, ev).nodes && n.nodeId == work && n.properties == ev.attributes &&
                n.resourceId == (if RouteOf(ev) == PullRequest then PrResource(ev) else IssueResource(ev)) &&
                n.nodeType == if RouteOf(ev) == PullRequest then "PullRequest" else "Issue"
  {
    if RouteOf(ev) == PullRequest {
      PullRequestWrites(rules, ev);
    } else {
      IssueWrites(rules, ev);
    }
  }

  lemma IntentKeepsNodes(rules: Rules, base: Mutation, ev: Event, about: string)
    ensures base.nodes <= MergeIntent(rules, base, ev, about).nodes
  {
  }

  lemma PullRequestWrites(rules: Rules, ev: Event)
    ensures PrNode(ev) in MapPullRequest(rules, ev).nodes
  {
    var person, repo, pr := PersonNode(ev), RepoNode(ev, RepoResource(ev)), PrNode(ev);
    var own := [EventEdge(ev, "AUTHORED", person.nodeId, pr.nodeId, NoProps),
                StableEdge(ev, "BELONGS_TO", pr.nodeId, repo.nodeId, NoProps)];
    var base := Mutation([person, repo, pr], own + BlockEdges(ev, pr.nodeId, Items(ev.attributes.Get("blocks"))),
                         [LifecycleState(ev)]);
    IntentKeepsNodes(rules, base, ev, pr.nodeId);
    assert MapPullRequest(rules, ev).nodes[2] == pr;
  }

  lemma IssueWrites(rules: Rules, ev: Event)
    ensures IssueNode(ev) in MapIssue(rules, ev).nodes
  {
    var nodes, own := IssueOwn(ev);
    FindNodeFinds(nodes, IssueNode(ev).nodeId);
    IntentKeepsNodes(rules, Mutation(nodes, own, [StatusState(ev)]), ev, IssueNode(ev).nodeId);
    assert IssueNode(ev) in nodes && forall n :: n in nodes ==> n in MapIssue(rules, ev).nodes;
  }

  // --- Edge ids ---------------------------------------------------------------------

  /** The id of an edge joins its parts; a push adds the commit to the event. */
  ghost predicate IdFits(ev: Event, e: Edge) {
    e.tenantId == ev.tenantId && e.eventId == ev.eventId &&
    if IsLasting(e.edgeType) then e.edgeId == StableEdgeId(e.tenantId, e.edgeType, e.fromId, e.toId)
    else if IsCommit(e) then CommitIdFits(ev, e)
    else e.edgeId == EventEdgeId(e.tenantId, e.edgeType, e.fromId, e.toId, ev.eventId)
  }

  /** Relations that hold until told otherwise have one edge, whichever events tell of them. */
  predicate IsLasting(t: string) {
    t in {"BELONGS_TO", "CLAIMS", "ABOUT", "ASSIGNED_TO", "MEMBER_OF"}
  }

  predicate IsCommit(e: Edge) {
    e.edgeType == "AUTHORED" && "commit:" <= e.toId
  }

  ghost predicate CommitIdFits(ev: Event, e: Edge) {
    exists sha :: e.toId == "commit:" + PushRepo(ev) + ":" + sha &&
        e.edgeId == EventEdgeId(e.tenantId, e.edgeType, e.fromId, e.toId, ev.eventId + ":" + sha)
  }

  ghost predicate IdsFit(ev: Event, es: seq<Edge>) {
    forall e :: e in es ==> IdFits(ev, e)
  }

  lemma IntentIdsFit(rules: Rules, base: Mutation, ev: Event, about: string)
    requires IdsFit(ev, base.edges)
    ensures IdsFit(ev, MergeIntent(rules, base, ev, about).edges)
  {
  }

  lemma {:induction false} BlockIdsFit(ev: Event, src: string, targets: seq<Json>)
    ensures IdsFit(ev, BlockEdges(ev, src, targets))
  {
    if targets != [] {
      BlockIdsFit(ev, src, targets[1..]);
    }
  }

  lemma {:induction false} AuthoredIdsFit(ev: Event, person: string, commits: seq<Json>)
    ensures IdsFit(ev, AuthoredEdges(ev, person, CommitNodes(ev, PushRepo(ev), commits)))
  {
    if commits != [] {
      AuthoredIdsFit(ev, person, commits[1..]);
      var sha, rest := TextOr(commits[0], ["id"], ""), CommitNodes(ev, PushRepo(ev), commits[1..]);
      if sha != "" {
        var n := CommitNode(ev, PushRepo(ev), sha, TextOr(commits[0], ["message"], ""));
        assert ([n] + rest)[1..] == rest;
        assert CommitIdFits(ev, AuthoredEdges(ev, person, [n] + rest)[0]);
      } else {
        assert [] + rest == rest;
      }
    }
  }

  lemma IdsOfRoute(rules: Rules, ev: Event, route: Route)
    ensures IdsFit(ev, MapBy(rules, ev, route).edges)
  {
    match route
    case PullRequest => PullRequestIds(rules, ev);
    case Issue => IssueIds(rules, ev);
    case Push => PushIds(ev);
    case _ =>
  }

  lemma PullRequestIds(rules: Rules, ev: Event)
    ensures IdsFit(ev, MapPullRequest(rules, ev).edges)
  {
    var person, repo, pr := PersonNode(ev), RepoNode(ev, RepoResource(ev)), PrNode(ev);
    var blocks := BlockEdges(ev, pr.nodeId, Items(ev.attributes.Get("blocks")));
    var own := [EventEdge(ev, "AUTHORED", person.nodeId, pr.nodeId, NoProps),
                StableEdge(ev, "BELONGS_TO", pr.nodeId, repo.nodeId, NoProps)];
    BlockIdsFit(ev, pr.nodeId, Items(ev.attributes.Get("blocks")));
    assert pr.nodeId[0] == 'p' && "commit:"[0] == 'c';
    assert IdsFit(ev, own);
    assert IdsFit(ev, own + blocks);
    IntentIdsFit(rules, Mutation([person, repo, pr], own + blocks, [LifecycleState(ev)]), ev, pr.nodeId);
  }

  lemma IssueIds(rules: Rules, ev: Event)
    ensures IdsFit(ev, MapIssue(rules, ev).edges)
  {
    var person, issue := PersonNode(ev), IssueNode(ev);
    var authored := EventEdge(ev, "AUTHORED", person.nodeId, issue.nodeId, NoProps);
    var nodes, own := [person, issue], [authored];
    match AssigneeKey(ev.attributes) {
      case Some(key) =>
        var assignee := PersonNodeForKey(ev, key);
        nodes := [person, issue, assignee];
        own := [authored, StableEdge(ev, "ASSIGNED_TO", issue.nodeId, assignee.nodeId,
                    JObj(map["assignee_key" := JStr(key)]))];
      case None =>
        if Text.Contains(Text.Lower(ev.eventType), "assign") {
          own := [authored, StableEdge(ev, "ASSIGNED_TO", issue.nodeId, person.nodeId, NoProps)];
        }
    }
    assert issue.nodeId[0] == 'i' && "commit:"[0] == 'c';
    assert IdsFit(ev, own);
    IntentIdsFit(rules, Mutation(nodes, own, [StatusState(ev)]), ev, issue.nodeId);
  }

  lemma PushIds(ev: Event)
    ensures IdsFit(ev, MapPush(ev).edges)
  {
    if PushRepo(ev) != "" {
      var all := Items(ev.attributes.Get("commits"));
      AuthoredIdsFit(ev, PersonNode(ev).nodeId, if |all| <= 20 then all else all[..20]);
    }
  }

  /** What stands before the first bar is the same. */
  lemma {:induction false} BarSplits(a: string, b: string, r: string, s: string)
    requires '|' !in a && '|' !in b && a + "|" + r == b + "|" + s
    ensures a == b && r == s
  {
    var x, y := a + "|" + r, b + "|" + s;
    if a == "" || b == "" {
      assert x[0] == y[0];
      assert r == x[1..] && s == y[1..];
    } else {
      assert x[0] == a[0] && y[0] == b[0];
      assert x[1..] == a[1..] + "|" + r && y[1..] == b[1..] + "|" + s;
      BarSplits(a[1..], b[1..], r, s);
      assert a == [a[0]] + a[1..] && b == [b[0]] + b[1..];
    }
  }

  lemma ShorterTail(a: string, b: string, r: string, s: string)
    requires |r| < |s| && a + "|" + r == b + "|" + s
    ensures '|' in s
  {
    assert (a + "|" + r)[|a|] == '|' && (b + "|" + s)[|a|] == s[|a| - |b| - 1];
  }

  /** What stands behind the last bar is the same. */
  lemma BarSplitsLast(a: string, b: string, r: string, s: string)
    requires '|' !in r && '|' !in s && a + "|" + r == b + "|" + s
    ensures a == b && r == s
  {
    var x, y := a + "|" + r, b + "|" + s;
    if |r| == |s| {
      assert x[..|a|] == a && y[..|b|] == b && x[|a| + 1..] == r && y[|b| + 1..] == s;
    } else if |r| < |s| {
      ShorterTail(a, b, r, s);
    } else {
      ShorterTail(b, a, s, r);
    }
  }

  predicate IsType(t: string) {
    t in {"AUTHORED", "BELONGS_TO", "BLOCKS", "CLAIMS", "ABOUT", "ASSIGNED_TO", "MEMBER_OF", "PUSHED_TO", "CHECKED",
          "DISCUSSED_IN"}
  }

  lemma ToldTypes(ev: Event, route: Route, t: string, a: string, b: string)
    requires TellsBy(ev, route, t, a, b)
    ensures IsType(t)
  {
  }

  lemma NoBar(t: string)
    requires IsType(t)
    ensures '|' !in t
  {
  }

  /** The type can be read off an id. */
  lemma TypeInEventId(tenant: string, t: string, a: string, b: string, x: string, t': string, a': string, b': string,
      x': string)
    requires '|' !in t && '|' !in t' && EventEdgeId(tenant, t, a, b, x) == EventEdgeId(tenant, t', a', b', x')
    ensures t == t' && a + "|" + b + "|" + x == a' + "|" + b' + "|" + x'
  {
    var start, rest, rest' := "e_" + tenant + "|", a + "|" + b + "|" + x, a' + "|" + b' + "|" + x';
    assert EventEdgeId(tenant, t, a, b, x) == start + (t + "|" + rest);
    assert EventEdgeId(tenant, t', a', b', x') == start + (t' + "|" + rest');
    assert (start + (t + "|" + rest))[|start|..] == t + "|" + rest;
    assert (start + (t' + "|" + rest'))[|start|..] == t' + "|" + rest';
    BarSplits(t, t', rest, rest');
  }

  lemma TypeInStableId(tenant: string, t: string, a: string, b: string, t': string, a': string, b': string)
    requires '|' !in t && '|' !in t' && StableEdgeId(tenant, t, a, b) == StableEdgeId(tenant, t', a', b')
    ensures t == t' && a + "|" + b == a' + "|" + b'
  {
    var start, rest, rest' := "es_" + tenant + "|", a + "|" + b, a' + "|" + b';
    assert StableEdgeId(tenant, t, a, b) == start + (t + "|" + rest);
    assert StableEdgeId(tenant, t', a', b') == start + (t' + "|" + rest');
    assert (start + (t + "|" + rest))[|start|..] == t + "|" + rest;
    assert (start + (t' + "|" + rest'))[|start|..] == t' + "|" + rest';
    BarSplits(t, t', rest, rest');
  }

  lemma KindsDiffer(tenant: string, t: string, a: string, b: string, x: string, t': string, a': string, b': string)
    ensures EventEdgeId(tenant, t, a, b, x) != StableEdgeId(tenant, t', a', b')
  {
    assert EventEdgeId(tenant, t, a, b, x)[1] == '_' && StableEdgeId(tenant, t', a', b')[1] == 's';
  }

  /** Edges of one tenant with one id have one type. */
  lemma SameType(ev: Event, ev': Event, e: Edge, e': Edge)
    requires IdFits(ev, e) && IdFits(ev', e') && KeyOf(e) == KeyOf(e') && '|' !in e.edgeType && '|' !in e'.edgeType
    ensures e.edgeType == e'.edgeType
  {
    if IsLasting(e.edgeType) && IsLasting(e'.edgeType) {
      TypeInStableId(e.tenantId, e.edgeType, e.fromId, e.toId, e'.edgeType, e'.fromId, e'.toId);
    } else if IsLasting(e.edgeType) {
      var x' := Suffix(ev', e');
      KindsDiffer(e.tenantId, e'.edgeType, e'.fromId, e'.toId, x', e.edgeType, e.fromId, e.toId);
    } else if IsLasting(e'.edgeType) {
      var x := Suffix(ev, e);
      KindsDiffer(e.tenantId, e.edgeType, e.fromId, e.toId, x, e'.edgeType, e'.fromId, e'.toId);
    } else {
      var x := Suffix(ev, e);
      var x' := Suffix(ev', e');
      TypeInEventId(e.tenantId, e.edgeType, e.fromId, e.toId, x, e'.edgeType, e'.fromId, e'.toId, x');
    }
  }

  lemma Suffix(ev: Event, e: Edge) returns (x: string)
    requires IdFits(ev, e) && !IsLasting(e.edgeType)
    ensures e.edgeId == EventEdgeId(e.tenantId, e.edgeType, e.fromId, e.toId, x)
    ensures if IsCommit(e) then TailOf(ev, e, x) else x == ev.eventId
  {
    if !IsCommit(e) {
      x := ev.eventId;
    } else {
      var sha :| e.toId == "commit:" + PushRepo(ev) + ":" + sha &&
          e.edgeId == EventEdgeId(e.tenantId, e.edgeType, e.fromId, e.toId, ev.eventId + ":" + sha);
      x := ev.eventId + ":" + sha;
    }
  }

  ghost predicate TailOf(ev: Event, e: Edge, x: string) {
    exists sha :: x == ev.eventId + ":" + sha && e.toId == "commit:" + PushRepo(ev) + ":" + sha
  }

  /** Only the blocks of a pull request and the commits of a push go to several places. */
  lemma ToldOnce(ev: Event, route: Route, t: string, a: string, b: string, a': string, b': string)
    requires TellsBy(ev, route, t, a, b) && TellsBy(ev, route, t, a', b')
    ensures a == a' && (b == b' || t == "BLOCKS" || (t == "AUTHORED" && route == Push))
  {
  }

  lemma CommitEnds(ev: Event, a: string, b: string)
    requires TellsBy(ev, Push, "AUTHORED", a, b)
    ensures "commit:" <= b
  {
    var repo := PushRepo(ev);
    assert NamesCommit(ev.attributes, repo, b);
    var sha :| b == "commit:" + PushRepo(ev) + ":" + sha;
    assert b == "commit:" + (PushRepo(ev) + ":" + sha);
  }

  lemma SameTail(p: string, b: string, b': string, x: string)
    requires p + "|" + b + "|" + x == p + "|" + b' + "|" + x
    ensures b == b'
  {
    var y, y' := p + "|" + b + "|" + x, p + "|" + b' + "|" + x;
    assert |b| == |b'|;
    assert y[|p| + 1..|p| + 1 + |b|] == b && y'[|p| + 1..|p| + 1 + |b'|] == b';
  }

  lemma SameCommit(p: string, c: string, sha: string, sha': string, x: string)
    requires p + "|" + (c + sha) + "|" + (x + sha) == p + "|" + (c + sha') + "|" + (x + sha')
    ensures sha == sha'
  {
    var y, y' := p + "|" + (c + sha) + "|" + (x + sha), p + "|" + (c + sha') + "|" + (x + sha');
    assert |y| == |p| + |c| + |x| + 2 + 2 * |sha| && |y'| == |p| + |c| + |x| + 2 + 2 * |sha'|;
    assert y[|y| - |sha|..] == sha && y'[|y'| - |sha'|..] == sha';
  }

  lemma EdgeIsTold(rules: Rules, ev: Event, e: Edge)
    requires e in MapEvent(rules, ev).edges
    ensures IdFits(ev, e) && Tells(ev, e.edgeType, e.fromId, e.toId) && '|' !in e.edgeType
  {
    IdsOfRoute(rules, ev, RouteOf(ev));
    EdgesAreTold(rules, ev, e.edgeType, e.fromId, e.toId);
    ToldTypes(ev, RouteOf(ev), e.edgeType, e.fromId, e.toId);
    NoBar(e.edgeType);
  }

  lemma SameEnd(ev: Event, e: Edge, e': Edge)
    requires IdFits(ev, e) && IdFits(ev, e') && KeyOf(e) == KeyOf(e')
    requires e.edgeType == e'.edgeType && e.fromId == e'.fromId && '|' !in e.edgeType
    requires IsCommit(e) <==> IsCommit(e')
    ensures e.toId == e'.toId
  {
    var t, p := e.tenantId, e.fromId;
    if IsLasting(e.edgeType) {
      TypeInStableId(t, e.edgeType, p, e.toId, e.edgeType, p, e'.toId);
      SameRest(p, e.toId, e'.toId);
    } else {
      var x := Suffix(ev, e);
      var x' := Suffix(ev, e');
      TypeInEventId(t, e.edgeType, p, e.toId, x, e.edgeType, p, e'.toId, x');
      SameTails(ev, e, e', x, x');
    }
  }

  lemma SameRest(p: string, b: string, b': string)
    requires p + "|" + b == p + "|" + b'
    ensures b == b'
  {
    assert (p + "|" + b)[|p| + 1..] == b && (p + "|" + b')[|p| + 1..] == b';
  }

  lemma SameTails(ev: Event, e: Edge, e': Edge, x: string, x': string)
    requires e.fromId == e'.fromId && (IsCommit(e) <==> IsCommit(e'))
    requires if IsCommit(e) then TailOf(ev, e, x) && TailOf(ev, e', x') else x == x'
    requires e.fromId + "|" + e.toId + "|" + x == e'.fromId + "|" + e'.toId + "|" + x'
    ensures e.toId == e'.toId
  {
    if IsCommit(e) {
      var c := "commit:" + PushRepo(ev) + ":";
      var sha :| x == ev.eventId + ":" + sha && e.toId == c + sha;
      var sha' :| x' == ev.eventId + ":" + sha' && e'.toId == c + sha';
      SameCommit(e.fromId, c, sha, sha', ev.eventId + ":");
    } else {
      SameTail(e.fromId, e.toId, e'.toId, x);
    }
  }

  /** No event writes two edges of different courses under one id. */
  lemma OneCoursePerEvent(rules: Rules, ev: Event)
    ensures OneCourse(MapEvent(rules, ev).edges)
  {
    forall e, e' | e in MapEvent(rules, ev).edges && e' in MapEvent(rules, ev).edges && KeyOf(e) == KeyOf(e')
      ensures Course(e) == Course(e')
    {
      EdgeIsTold(rules, ev, e);
      EdgeIsTold(rules, ev, e');
      SameType(ev, ev, e, e');
      ToldOnce(ev, RouteOf(ev), e.edgeType, e.fromId, e.toId, e'.fromId, e'.toId);
      if e.toId != e'.toId {
        if e.edgeType == "AUTHORED" {
          CommitEnds(ev, e.fromId, e.toId);
          CommitEnds(ev, e'.fromId, e'.toId);
        }
        SameEnd(ev, e, e');
      }
    }
  }

  // --- What a run keeps ---------------------------------------------------------------

  /** The recorded event at `k` writes this edge. */
  ghost predicate WrittenAt(rules: Rules, inputs: seq<Input>, k: int, e: Edge) {
    IsRecorded(inputs, k) && inputs[k].Ev? && e in MapEvent(rules, inputs[k].event).edges
  }

  /** Every later edge under the id of `e` has the same course. */
  ghost predicate NotOverwritten(rules: Rules, inputs: seq<Input>, k: int, e: Edge) {
    forall j, x :: k < j && WrittenAt(rules, inputs, j, x) && KeyOf(x) == KeyOf(e) ==> Course(x) == Course(e)
  }

  /** The edges the last input of a run adds to what is written. */
  ghost function LastWritten(rules: Rules, inputs: seq<Input>): seq<Edge>
    requires inputs != []
  {
    var k := |inputs| - 1;
    if IsRecorded(inputs, k) && inputs[k].Ev? then MapEvent(rules, inputs[k].event).edges else []
  }

  lemma WrittenStep(rules: Rules, inputs: seq<Input>)
    requires inputs != []
    ensures Written(rules, inputs) == Written(rules, inputs[..|inputs| - 1]) + LastWritten(rules, inputs)
    ensures forall e :: WrittenAt(rules, inputs, |inputs| - 1, e) <==> e in LastWritten(rules, inputs)
  {
    LastRecordedIff(rules, inputs);
  }

  lemma WrittenPrefix(rules: Rules, inputs: seq<Input>, k: int, e: Edge)
    requires inputs != [] && k < |inputs| - 1
    ensures WrittenAt(rules, inputs, k, e) <==> WrittenAt(rules, inputs[..|inputs| - 1], k, e)
  {
    RecordedPrefix(inputs, k);
  }

  lemma {:induction false} LastsAppend(a: seq<Edge>, b: seq<Edge>, k: RowKey)
    ensures Lookup(Lasts(a + b), k) == if k in Lasts(b) then Some(Lasts(b)[k]) else Lookup(Lasts(a), k)
  {
    if b == [] {
      assert a + b == a;
    } else {
      assert (a + b)[..|a + b| - 1] == a + b[..|b| - 1];
      LastsAppend(a, b[..|b| - 1], k);
    }
  }

  /** The last edge under a key comes from some event, and whatever is written there later goes the same way. */
  ghost predicate LastFrom(rules: Rules, inputs: seq<Input>, key: RowKey, k: int, e: Edge) {
    WrittenAt(rules, inputs, k, e) && KeyOf(e) == key &&
    forall j, x :: k < j && WrittenAt(rules, inputs, j, x) ==> KeyOf(x) != key
  }

  lemma {:induction false} LastComesFrom(rules: Rules, inputs: seq<Input>, key: RowKey)
    requires key in Lasts(Written(rules, inputs))
    ensures exists k :: LastFrom(rules, inputs, key, k, Lasts(Written(rules, inputs))[key])
  {
    if inputs != [] {
      var init, n := inputs[..|inputs| - 1], |inputs| - 1;
      var es := LastWritten(rules, inputs);
      WrittenStep(rules, inputs);
      LastsAppend(Written(rules, init), es, key);
      FirstsAndLasts(es);
      if key in Lasts(es) {
        assert LastFrom(rules, inputs, key, n, Lasts(es)[key]);
      } else {
        LastComesFrom(rules, init, key);
        var e := Lasts(Written(rules, init))[key];
        var k :| LastFrom(rules, init, key, k, e);
        StillLast(rules, inputs, key, k, e);
      }
    }
  }

  lemma StillLast(rules: Rules, inputs: seq<Input>, key: RowKey, k: int, e: Edge)
    requires inputs != [] && LastFrom(rules, inputs[..|inputs| - 1], key, k, e)
    requires forall x :: x in LastWritten(rules, inputs) ==> KeyOf(x) != key
    ensures LastFrom(rules, inputs, key, k, e)
  {
    WrittenPrefix(rules, inputs, k, e);
    forall j, x | k < j && WrittenAt(rules, inputs, j, x) ensures KeyOf(x) != key {
      OtherKey(rules, inputs, key, k, e, j, x);
    }
  }

  lemma OtherKey(rules: Rules, inputs: seq<Input>, key: RowKey, k: int, e: Edge, j: int, x: Edge)
    requires inputs != [] && LastFrom(rules, inputs[..|inputs| - 1], key, k, e)
    requires forall x :: x in LastWritten(rules, inputs) ==> KeyOf(x) != key
    requires k < j && WrittenAt(rules, inputs, j, x)
    ensures KeyOf(x) != key
  {
    if j < |inputs| - 1 {
      WrittenPrefix(rules, inputs, j, x);
    } else {
      LastIsWritten(rules, inputs, j, x);
    }
  }

  lemma LastIsWritten(rules: Rules, inputs: seq<Input>, j: int, x: Edge)
    requires WrittenAt(rules, inputs, j, x) && j == |inputs| - 1
    ensures x in LastWritten(rules, inputs)
  {
  }

  /** What is written is among the writes. */
  lemma {:induction false} WrittenIsIn(rules: Rules, inputs: seq<Input>, k: int, e: Edge)
    requires WrittenAt(rules, inputs, k, e)
    ensures e in Written(rules, inputs)
  {
    WrittenStep(rules, inputs);
    if k < |inputs| - 1 {
      WrittenPrefix(rules, inputs, k, e);
      WrittenIsIn(rules, inputs[..|inputs| - 1], k, e);
    }
  }

  /** An edge nobody sends another way decides the course of the last write under its id. */
  lemma KeptCourseIsLast(rules: Rules, inputs: seq<Input>, k: int, e: Edge)
    requires WrittenAt(rules, inputs, k, e) && NotOverwritten(rules, inputs, k, e)
    ensures var last := Lasts(Written(rules, inputs)); KeyOf(e) in last && Course(last[KeyOf(e)]) == Course(e)
  {
    WrittenIsIn(rules, inputs, k, e);
    FirstsAndLasts(Written(rules, inputs));
    LastComesFrom(rules, inputs, KeyOf(e));
    var x := Lasts(Written(rules, inputs))[KeyOf(e)];
    var j :| LastFrom(rules, inputs, KeyOf(e), j, x);
    if j == k {
      OneCoursePerEvent(rules, inputs[k].event);
    } else {
      assert j > k;
    }
  }

  /** The recorded event at `k` puts the relation down, and no later one writes something else under its id. */
  ghost predicate KeptFrom(rules: Rules, inputs: seq<Input>, k: int, e: Edge, tenant: string, t: string, a: string,
      b: string) {
    WrittenAt(rules, inputs, k, e) && NotOverwritten(rules, inputs, k, e) && e.tenantId == tenant &&
    Course(e) == (t, a, b)
  }

  ghost predicate Kept(rules: Rules, inputs: seq<Input>, tenant: string, t: string, a: string, b: string) {
    exists k, e :: KeptFrom(rules, inputs, k, e, tenant, t, a, b)
  }

  /**
   * After any run the graph says exactly what some recorded event has told it, except where a later event has written
   * something else under the id of that edge.
   */
  lemma StoredIff(rules: Rules, inputs: seq<Input>, tenant: string, t: string, a: string, b: string)
    ensures Draws(ListFor(Run(rules, EmptySystem, inputs).graph.edges, tenant), t, a, b) <==>
              Kept(rules, inputs, tenant, t, a, b)
  {
    var es := Written(rules, inputs);
    RunWrites(rules, inputs);
    ListsAre(es);
    if e :| e in ListFor(PutEdges(map[], es), tenant) && Course(e) == (t, a, b) {
      assert LastWrite(es, tenant, e);
      LastComesFrom(rules, inputs, KeyOf(e));
      var k :| LastFrom(rules, inputs, KeyOf(e), k, e);
      assert KeptFrom(rules, inputs, k, e, tenant, t, a, b);
    }
    if k, e :| KeptFrom(rules, inputs, k, e, tenant, t, a, b) {
      KeptCourseIsLast(rules, inputs, k, e);
      FirstsAndLasts(es);
      assert LastWrite(es, tenant, Lasts(es)[KeyOf(e)]);
    }
  }

  // Edges that name their event

  /** Relations of one event: nothing but the event's id and the two ends is in the id of the edge. */
  predicate IsMoment(t: string) {
    t in {"BLOCKS", "PUSHED_TO", "CHECKED", "DISCUSSED_IN"}
  }

  lemma MomentsDiffer(rules: Rules, one: Event, two: Event, e: Edge, x: Edge)
    requires e in MapEvent(rules, one).edges && x in MapEvent(rules, two).edges
    requires IsMoment(e.edgeType) && '|' !in one.eventId && '|' !in two.eventId && KeyOf(e) == KeyOf(x)
    ensures one.tenantId == two.tenantId && one.eventId == two.eventId
  {
    EdgeIsTold(rules, one, e);
    EdgeIsTold(rules, two, x);
    SameType(one, two, e, x);
    TypeInEventId(e.tenantId, e.edgeType, e.fromId, e.toId, one.eventId, x.edgeType, x.fromId, x.toId, two.eventId);
    BarSplitsLast(e.fromId + "|" + e.toId, x.fromId + "|" + x.toId, one.eventId, two.eventId);
  }

  ghost predicate PlainIds(inputs: seq<Input>) {
    forall j :: IsRecorded(inputs, j) && inputs[j].Ev? ==> '|' !in inputs[j].event.eventId
  }

  lemma MomentStays(rules: Rules, inputs: seq<Input>, k: int, e: Edge)
    requires PlainIds(inputs) && WrittenAt(rules, inputs, k, e) && IsMoment(e.edgeType)
    ensures NotOverwritten(rules, inputs, k, e)
  {
    if j, x :| k < j && WrittenAt(rules, inputs, j, x) && KeyOf(x) == KeyOf(e) {
      MomentsDiffer(rules, inputs[k].event, inputs[j].event, e, x);
      RecordedOnce(inputs, k, j);
    }
  }

  /** As long as event ids have no bar, every block, push, check and message a recorded event tells of is stored. */
  lemma MomentsAreStored(rules: Rules, inputs: seq<Input>, k: int, t: string, a: string, b: string)
    requires PlainIds(inputs) && IsRecorded(inputs, k) && inputs[k].Ev?
    requires Tells(inputs[k].event, t, a, b) && IsMoment(t)
    ensures Draws(ListFor(Run(rules, EmptySystem, inputs).graph.edges, inputs[k].event.tenantId), t, a, b)
  {
    var ev := inputs[k].event;
    EdgesAreTold(rules, ev, t, a, b);
    var e :| e in MapEvent(rules, ev).edges && Course(e) == (t, a, b);
    EdgeIsTold(rules, ev, e);
    MomentStays(rules, inputs, k, e);
    assert KeptFrom(rules, inputs, k, e, ev.tenantId, t, a, b);
    StoredIff(rules, inputs, ev.tenantId, t, a, b);
  }

  /** Every named block is stored, from the pull request to what it blocks. */
  lemma NamedBlocksAreStored(rules: Rules, inputs: seq<Input>, k: int, s: string)
    requires PlainIds(inputs) && IsRecorded(inputs, k) && inputs[k].Ev?
    requires Names(inputs[k].event.attributes, "blocks", s)
    requires "pull_request." <= inputs[k].event.eventType
    ensures var ev := inputs[k].event;
            Draws(ListFor(Run(rules, EmptySystem, inputs).graph.edges, ev.tenantId), "BLOCKS", "pr:" + PrResource(ev),
                WorkId(s))
  {
    var ev := inputs[k].event;
    assert RouteOf(ev) == PullRequest;
    MomentsAreStored(rules, inputs, k, "BLOCKS", "pr:" + PrResource(ev), WorkId(s));
  }

  /** With a bar in an event id, a later block of the same pull request can take the place of an earlier one. */
  lemma BlocksCollide(rules: Rules, one: Event, two: Event)
    requires RouteOf(one) == RouteOf(two) == PullRequest && one.tenantId == two.tenantId
    requires PrResource(one) == PrResource(two) && one.eventId == "x" && two.eventId == "y|x"
    requires Names(one.attributes, "blocks", "b|y") && Names(two.attributes, "blocks", "b")
    requires !Names(two.attributes, "blocks", "b|y")
    ensures Tells(one, "BLOCKS", "pr:" + PrResource(one), "issue:b|y")
    ensures !Draws(ListFor(Run(rules, EmptySystem, [Ev(one), Ev(two)]).graph.edges, one.tenantId), "BLOCKS",
        "pr:" + PrResource(one), "issue:b|y")
  {
    var inputs, pr := [Ev(one), Ev(two)], "pr:" + PrResource(one);
    assert WorkId("b|y") == "issue:b|y" && WorkId("b") == "issue:b";
    assert IsRecorded(inputs, 0) && IsRecorded(inputs, 1);
    NotNamed(two, pr);
    StoredIff(rules, inputs, one.tenantId, "BLOCKS", pr, "issue:b|y");
    if k, e :| KeptFrom(rules, inputs, k, e, one.tenantId, "BLOCKS", pr, "issue:b|y") {
      if k == 0 {
        FirstIsOverwritten(rules, one, two, e);
      } else {
        EdgeIsTold(rules, two, e);
      }
    }
  }

  lemma FirstIsOverwritten(rules: Rules, one: Event, two: Event, e: Edge)
    requires RouteOf(two) == PullRequest && one.tenantId == two.tenantId && PrResource(one) == PrResource(two)
    requires one.eventId == "x" && two.eventId == "y|x" && Names(two.attributes, "blocks", "b")
    requires e in MapEvent(rules, one).edges && Course(e) == ("BLOCKS", "pr:" + PrResource(one), "issue:b|y")
    ensures !NotOverwritten(rules, [Ev(one), Ev(two)], 0, e)
  {
    var x := BlockOfB(rules, two);
    EdgeIsTold(rules, one, e);
    SecondTakesId(rules, one, two);
    assert |x.toId| != |e.toId|;
    SecondOverwrites(rules, one, two, e, x);
  }

  lemma SecondOverwrites(rules: Rules, one: Event, two: Event, e: Edge, x: Edge)
    requires one.eventId != two.eventId && x in MapEvent(rules, two).edges
    requires KeyOf(x) == KeyOf(e) && Course(x) != Course(e)
    ensures !NotOverwritten(rules, [Ev(one), Ev(two)], 0, e)
  {
    assert IsRecorded([Ev(one), Ev(two)], 1);
    assert WrittenAt(rules, [Ev(one), Ev(two)], 1, x);
  }

  lemma BlockOfB(rules: Rules, ev: Event) returns (x: Edge)
    requires RouteOf(ev) == PullRequest && Names(ev.attributes, "blocks", "b")
    ensures x in MapEvent(rules, ev).edges && Course(x) == ("BLOCKS", "pr:" + PrResource(ev), "issue:b")
    ensures x.tenantId == ev.tenantId &&
        x.edgeId == EventEdgeId(ev.tenantId, "BLOCKS", "pr:" + PrResource(ev), "issue:b", ev.eventId)
  {
    assert WorkId("b") == "issue:b";
    EdgesAreTold(rules, ev, "BLOCKS", "pr:" + PrResource(ev), "issue:b");
    x :| x in MapEvent(rules, ev).edges && Course(x) == ("BLOCKS", "pr:" + PrResource(ev), "issue:b");
    EdgeIsTold(rules, ev, x);
  }

  lemma NotNamed(ev: Event, pr: string)
    requires RouteOf(ev) == PullRequest && !Names(ev.attributes, "blocks", "b|y")
    ensures !Tells(ev, "BLOCKS", pr, "issue:b|y")
  {
    forall s | WorkId(s) == "issue:b|y" ensures s == "b|y" {
      assert WorkId(s)[0] == 'i';
      assert ("issue:" + s)[6..] == s;
    }
  }

  lemma SecondTakesId(rules: Rules, one: Event, two: Event)
    requires one.tenantId == two.tenantId && PrResource(one) == PrResource(two)
    ensures EventEdgeId(one.tenantId, "BLOCKS", "pr:" + PrResource(one), "issue:b|y", "x")
         == EventEdgeId(two.tenantId, "BLOCKS", "pr:" + PrResource(two), "issue:b", "y|x")
  {
    var start := "e_" + one.tenantId + "|" + "BLOCKS" + "|" + ("pr:" + PrResource(one)) + "|";
    assert start + "issue:b|y" + "|" + "x" == start + ("issue:b|y" + "|" + "x");
    assert start + "issue:b" + "|" + "y|x" == start + ("issue:b" + "|" + "y|x");
    assert "issue:b|y" + "|" + "x" == "issue:b" + "|" + "y|x";
  }
}
