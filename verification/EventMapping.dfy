/** Canonical events and the graph mutations they map to. */
module EventMapping {
  import opened GraphModel
  import opened Text

  datatype Actor = Actor(globalUserId: string, providerUserId: string, email: string, displayName: string)

  datatype Acl = Acl(allowedGroups: seq<string>, isPrivate: bool, version: nat)

  datatype Event = Event(
    eventId: string, tenantId: string, provider: string, category: string, eventType: string, timestamp: int,
    actor: Actor, acl: Acl, resourceId: string, parentResourceId: string, attributes: Json)

  /** Verdict of the keyword rules on a work item. */
  datatype Claim = Claim(intentType: string, confidence: Json, evidence: Json)

  /** The keyword rules, applied to the title, labels and body found in the attributes. */
  type Rules = Json -> Claim

  const EmptyMutation := Mutation([], [], [])

  // --- Attribute access ---------------------------------------------------------

  /** The first key whose value is a string other than the unwanted ones. */
  function FirstText(j: Json, keys: seq<string>, unwanted: seq<string>): Option<string> {
    if keys == [] then None
    else
      match j.Str(keys[0])
      case Some(s) => if s !in unwanted then Some(s) else FirstText(j, keys[1..], unwanted)
      case None => FirstText(j, keys[1..], unwanted)
  }

  // --- Identifiers: where ids are hashes, the id is the text that is hashed ---

  function PersonId(user: string): string {
    if user == "" then "person:unknown" else "person:" + user
  }

  function ProviderPersonId(user: string): string {
    "person:prov:" + user
  }

  function PrId(resource: string): string {
    "pr:" + resource
  }

  function IssueId(resource: string): string {
    "issue:" + resource
  }

  function IntentId(owner: string, about: string): string {
    "intent:" + owner + ":" + about
  }

  function EventEdgeId(tenant: string, edgeType: string, src: string, dst: string, eventId: string): string {
    "e_" + tenant + "|" + edgeType + "|" + src + "|" + dst + "|" + eventId
  }

  function StableEdgeId(tenant: string, edgeType: string, src: string, dst: string): string {
    "es_" + tenant + "|" + edgeType + "|" + src + "|" + dst
  }

  // --- Building blocks ------------------------------------------------------------

  function MakeEdge(ev: Event, id: string, edgeType: string, src: string, dst: string, props: Json): Edge {
    Edge(ev.tenantId, id, edgeType, src, dst, ev.timestamp, None, ev.eventId, props,
         ev.acl.isPrivate, ev.acl.allowedGroups, ev.acl.version)
  }

  function EventEdge(ev: Event, edgeType: string, src: string, dst: string, props: Json): Edge {
    MakeEdge(ev, EventEdgeId(ev.tenantId, edgeType, src, dst, ev.eventId), edgeType, src, dst, props)
  }

  function StableEdge(ev: Event, edgeType: string, src: string, dst: string, props: Json): Edge {
    MakeEdge(ev, StableEdgeId(ev.tenantId, edgeType, src, dst), edgeType, src, dst, props)
  }

  function MakeNode(ev: Event, id: string, nodeType: string, name: string, resource: string, props: Json): Node {
    Node(ev.tenantId, id, nodeType, name, resource, props, ev.acl.isPrivate, ev.acl.allowedGroups, ev.acl.version)
  }

  const NoProps := JObj(map[])

  function StripAll(s: string, prefix: string): string
    requires prefix != ""
    decreases |s|
  {
    if prefix <= s then StripAll(s[|prefix|..], prefix) else s
  }

  function PersonKey(ev: Event): string {
    if ev.actor.globalUserId != "" then ev.actor.globalUserId
    else if ev.actor.providerUserId != "" then "prov:" + ev.actor.providerUserId
    else "unknown"
  }

  /** People are public within their tenant. */
  function PersonNode(ev: Event): Node {
    var key := PersonKey(ev);
    var id := if StartsWith(key, "prov:") then ProviderPersonId(StripAll(key, "prov:")) else PersonId(key);
    var name := if ev.actor.displayName == "" then ev.actor.providerUserId else ev.actor.displayName;
    MakeNode(ev, id, "Person", name, ev.actor.providerUserId,
             JObj(map["email" := JStr(ev.actor.email), "provider_user_id" :=
                 JStr(ev.actor.providerUserId)])).(isPrivate := false)
  }

  function PersonNodeForKey(ev: Event, key: string): Node {
    var id := if StartsWith(key, "gu_") || Contains(key, "@") then PersonId(key)
              else if StartsWith(key, "person:") then key
              else ProviderPersonId(key);
    MakeNode(ev, id, "Person", key, key, JObj(map["assignee_key" := JStr(key)])).(isPrivate := false)
  }

  function RepoNode(ev: Event, resource: string): Node {
    MakeNode(ev, "repo:" + resource, "Repo", resource, resource, NoProps)
  }

  // --- Intents ----------------------------------------------------------------------

  function InferSource(ev: Event, about: Node): string {
    var nt, et, provider := Lower(about.nodeType), Lower(ev.eventType), Lower(ev.provider);
    if Contains(nt, "pull") || Contains(nt, "merge_request") || Contains(et, "pull_request") ||
        Contains(et, "merge_request") then
      if Contains(provider, "gitlab") then "gitlab_mr" else "github_pr"
    else if Contains(nt, "issue") || Contains(et, "issue") then
      if Contains(provider, "jira") then "jira_issue"
      else if Contains(provider, "linear") then "linear_issue"
      else "github_issue"
    else "work_item"
  }

  /** An Intent node with CLAIMS from its owner and ABOUT to the work item. */
  function AttachIntent(rules: Rules, ev: Event, about: Node, owner: string): Mutation {
    if EqIgnoreCase(about.nodeType, "Commit") then EmptyMutation
    else
      var claim := rules(ev.attributes);
      var title := TextOr(ev.attributes, ["title", "summary", "name"], "");
      var id := IntentId(owner, about.nodeId);
      var summary := if title == "" then claim.intentType + " on " + about.resourceId
          else claim.intentType + ": " + title;
      var props := JObj(map[
        "intent_type" := JStr(claim.intentType),
        "confidence" := claim.confidence,
        "evidence" := claim.evidence,
        "about_node_id" := JStr(about.nodeId),
        "owner_node_id" := JStr(owner),
        "classified_by" := JStr("rules_v0"),
        "source" := JStr(InferSource(ev, about)),
        "is_demo" := JBool(false),
        "event_id" := JStr(ev.eventId)]);
      Mutation(
        [MakeNode(ev, id, "Intent", summary, about.resourceId, props)],
        [StableEdge(ev, "CLAIMS", owner, id, JObj(map["intent_type" := JStr(claim.intentType)])),
         StableEdge(ev, "ABOUT", id, about.nodeId, NoProps)],
        [])
  }

  function FindNode(ns: seq<Node>, id: string): Option<Node> {
    if ns == [] then None else if ns[0].nodeId == id then Some(ns[0]) else FindNode(ns[1..], id)
  }

  function FindPerson(ns: seq<Node>): Option<Node> {
    if ns == [] then None else if ns[0].nodeType == "Person" then Some(ns[0]) else FindPerson(ns[1..])
  }

  function MergeIntent(rules: Rules, base: Mutation, ev: Event, aboutId: string): Mutation {
    match FindNode(base.nodes, aboutId)
    case None => base
    case Some(about) =>
      if EqIgnoreCase(about.nodeType, "Commit") then base
      else
        var owner :=
          match FindPerson(base.nodes)
          case Some(p) => p.nodeId
          case None =>
            if ev.actor.globalUserId == "" then ProviderPersonId(ev.actor.providerUserId)
                else PersonId(ev.actor.globalUserId);
        var m := AttachIntent(rules, ev, about, owner);
        base.(nodes := base.nodes + m.nodes, edges := base.edges + m.edges)
  }

  // --- Pull requests ------------------------------------------------------------------

  predicate IsPullRequest(ev: Event) {
    StartsWith(ev.eventType, "pull_request.") || Contains(ev.eventType, "merge_request.")
  }

  function RepoResource(ev: Event): string {
    if ev.parentResourceId == "" then FirstTwoSegments(ev.resourceId) else ev.parentResourceId
  }

  function PrResource(ev: Event): string {
    if ev.resourceId == "" then RepoResource(ev) + "/pr/unknown" else ev.resourceId
  }

  function Lifecycle(ev: Event): string {
    if Contains(ev.eventType, "merged") then "MERGED"
    else if Contains(ev.eventType, "closed") then "CLOSED"
    else "OPEN"
  }

  function MakeState(ev: Event, nodeId: string, key: string, value: string): EntityState {
    EntityState(ev.tenantId, nodeId, key, value, ev.timestamp, ev.eventId, ev.acl.isPrivate, ev.acl.allowedGroups)
  }

  function LifecycleState(ev: Event): EntityState {
    MakeState(ev, PrId(PrResource(ev)), "lifecycle", Lifecycle(ev))
  }

  /** BLOCKS edges from the `blocks` attribute; their targets need not exist. */
  function BlockEdges(ev: Event, src: string, targets: seq<Json>): seq<Edge> {
    if targets == [] then []
    else
      var rest := BlockEdges(ev, src, targets[1..]);
      match targets[0]
      case JStr(t) => [EventEdge(ev, "BLOCKS", src, if Contains(t, "/pr/") then PrId(t) else IssueId(t),
          NoProps)] + rest
      case _ => rest
  }

  function Items(j: Option<Json>): seq<Json> {
    match j
    case Some(JArr(items)) => items
    case _ => []
  }

  function PrNode(ev: Event): Node {
    var title := TextOr(ev.attributes, ["title"], "");
    MakeNode(ev, PrId(PrResource(ev)), "PullRequest", if title == "" then PrResource(ev) else title, PrResource(ev),
        ev.attributes)
  }

  function MapPullRequest(rules: Rules, ev: Event): Mutation {
    var person, repo, pr := PersonNode(ev), RepoNode(ev, RepoResource(ev)), PrNode(ev);
    var edges :=
      [EventEdge(ev, "AUTHORED", person.nodeId, pr.nodeId, NoProps),
       StableEdge(ev, "BELONGS_TO", pr.nodeId, repo.nodeId, NoProps)]
      + BlockEdges(ev, pr.nodeId, Items(ev.attributes.Get("blocks")));
    MergeIntent(rules, Mutation([person, repo, pr], edges, [LifecycleState(ev)]), ev, pr.nodeId)
  }

  // --- Issues ----------------------------------------------------------------------------

  function AssigneeKey(attrs: Json): Option<string> {
    var nested :=
      match attrs.Get("assignee")
      case Some(JObj(f)) =>
        FirstText(JObj(f), ["global_user_id", "id", "login", "accountId", "account_id", "name"], [""])
      case _ => None;
    if nested.Some? then nested
    else FirstText(attrs, ["assignee", "assignee_id", "assignee_account_id", "assignee_login",
        "assignee_global_user_id"], ["", "null"])
  }

  function IssueResource(ev: Event): string {
    if ev.resourceId != "" then ev.resourceId
    else (if ev.parentResourceId == "" then "project" else ev.parentResourceId) + "/issue/unknown"
  }

  function IssueNode(ev: Event): Node {
    var res := IssueResource(ev);
    MakeNode(ev, IssueId(res), "Issue", TextOr(ev.attributes, ["summary", "title"], res), res, ev.attributes)
  }

  function StatusState(ev: Event): EntityState {
    MakeState(ev, IssueId(IssueResource(ev)), "status", TextOr(ev.attributes, ["status", "state"], "unknown"))
  }

  function MapIssue(rules: Rules, ev: Event): Mutation {
    var person, issue := PersonNode(ev), IssueNode(ev);
    var authored := EventEdge(ev, "AUTHORED", person.nodeId, issue.nodeId, NoProps);
    var (nodes, edges) :=
      match AssigneeKey(ev.attributes)
      case Some(key) =>
        var assignee := PersonNodeForKey(ev, key);
        ([person, issue, assignee],
         [authored, StableEdge(ev, "ASSIGNED_TO", issue.nodeId, assignee.nodeId,
             JObj(map["assignee_key" := JStr(key)]))])
      case None =>
        ([person, issue],
         if Contains(Lower(ev.eventType), "assign")
         then [authored, StableEdge(ev, "ASSIGNED_TO", issue.nodeId, person.nodeId, NoProps)]
         else [authored]);
    MergeIntent(rules, Mutation(nodes, edges, [StatusState(ev)]), ev, issue.nodeId)
  }

  // --- Teams, pushes, checks, channels, blocker hints -------------------------------------

  predicate Leaves(et: string) {
    Contains(et, "remove") || Contains(et, "left") || Contains(et, "deleted")
  }

  function MapTeamMembership(ev: Event): Mutation {
    var team := TextOr(ev.attributes, ["team", "group_name", "group_id", "channel", "org"], "");
    if team == "" || Leaves(Lower(ev.eventType)) then EmptyMutation
    else
      var person := PersonNode(ev);
      var t := MakeNode(ev, "team:" + team, "Team", team, team, NoProps).(isPrivate := false);
      Mutation([person, t], [StableEdge(ev, "MEMBER_OF", person.nodeId, t.nodeId, JObj(map["team" := JStr(team)]))], [])
  }

  function PushRepo(ev: Event): string {
    if ev.parentResourceId != "" then ev.parentResourceId
    else
      var i := IndexOf(ev.resourceId, "/ref/");
      if i < |ev.resourceId| then ev.resourceId[..i] else FirstTwoSegments(ev.resourceId)
  }

  predicate IsSpace(c: char) {
    c in " \t\n\r"
  }

  function TrimStart(s: string): string {
    if s != "" && IsSpace(s[0]) then TrimStart(s[1..]) else s
  }

  function TrimEnd(s: string): string {
    if s != "" && IsSpace(s[|s| - 1]) then TrimEnd(s[..|s| - 1]) else s
  }

  /** First line of a commit message, trimmed, at most 240 characters. */
  function CommitTitle(msg: string): string {
    var line := TrimEnd(TrimStart(msg[..IndexOf(msg, "\n")]));
    if |line| <= 240 then line else line[..240]
  }

  function CommitNode(ev: Event, repo: string, sha: string, msg: string): Node {
    MakeNode(ev, "commit:" + repo + ":" + sha, "Commit", if |sha| <= 7 then sha else sha[..7], sha,
             JObj(map["message" := JStr(CommitTitle(msg)), "title" := JStr(CommitTitle(msg)), "sha" := JStr(sha)]))
  }

  function CommitNodes(ev: Event, repo: string, commits: seq<Json>): seq<Node> {
    if commits == [] then []
    else
      var sha := TextOr(commits[0], ["id"], "");
      (if sha == "" then [] else [CommitNode(ev, repo, sha, TextOr(commits[0], ["message"], ""))])
      + CommitNodes(ev, repo, commits[1..])
  }

  function AuthoredEdges(ev: Event, person: string, commits: seq<Node>): seq<Edge> {
    if commits == [] then []
    else
      var c := commits[0];
      [MakeEdge(ev, EventEdgeId(ev.tenantId, "AUTHORED", person, c.nodeId, ev.eventId + ":" + c.resourceId),
                "AUTHORED", person, c.nodeId, NoProps)]
      + AuthoredEdges(ev, person, commits[1..])
  }

  function MapPush(ev: Event): Mutation {
    var res := PushRepo(ev);
    if res == "" then EmptyMutation
    else
      var person, repo := PersonNode(ev), RepoNode(ev, res);
      var items := Items(ev.attributes.Get("commits"));
      var commits := CommitNodes(ev, res, if |items| <= 20 then items else items[..20]);
      var count := match ev.attributes.Get("commit_count") case Some(c) => c case None => JNull;
      Mutation(
        [person, repo] + commits,
        [EventEdge(ev, "PUSHED_TO", person.nodeId, repo.nodeId,
                   JObj(map["ref" := JStr(TextOr(ev.attributes, ["ref"], "")), "commit_count" := count]))]
        + AuthoredEdges(ev, person.nodeId, commits),
        [])
  }

  function MapCheck(ev: Event): Mutation {
    var res := RepoResource(ev);
    if res == "" || (res == ev.resourceId && !Contains(ev.resourceId, "/")) then EmptyMutation
    else
      var person, repo := PersonNode(ev), RepoNode(ev, res);
      Mutation([person, repo],
        [EventEdge(ev, "CHECKED", person.nodeId, repo.nodeId, JObj(map["event_type" := JStr(ev.eventType)]))], [])
  }

  function MapCommunication(ev: Event): Mutation {
    var channel := TextOr(ev.attributes, ["channel", "conversation_id"], "unknown");
    var person := PersonNode(ev);
    var ch := MakeNode(ev, "channel:" + channel, "Channel", channel, channel, NoProps);
    var preview := match ev.attributes.Get("text_preview") case Some(p) => p case None => JStr("");
    Mutation([person, ch], [EventEdge(ev, "DISCUSSED_IN", person.nodeId, ch.nodeId, JObj(map["preview" := preview]))],
        [])
  }

  function MapBlockerHint(ev: Event): Mutation {
    match (ev.attributes.Str("from_resource_id"), ev.attributes.Str("to_resource_id"))
    case (Some(f), Some(t)) => Mutation([], [EventEdge(ev, "BLOCKS", PrId(f), PrId(t), NoProps)], [])
    case _ => EmptyMutation
  }

  // --- Dispatch -----------------------------------------------------------------------------

  predicate IsIdentity(ev: Event) {
    var et := Lower(ev.eventType);
    EqIgnoreCase(ev.category, "identity") || Contains(et, "identity") ||
        (Contains(et, "member") && !Contains(et, "comment"))
  }

  predicate IsIssue(ev: Event) {
    var et := Lower(ev.eventType);
    StartsWith(ev.eventType, "issue.") || Contains(et, "jira:") || StartsWith(ev.eventType, "linear.")
    || Contains(et, "issue.assigned") || Contains(et, "issue_assigned")
  }

  predicate IsCheck(et: string) {
    StartsWith(et, "check_suite.") || StartsWith(et, "check_run.") || StartsWith(et, "status.")
    || StartsWith(et, "workflow_run.") || StartsWith(et, "deployment.") || StartsWith(et, "branch.")
  }

  datatype Route = PullRequest | Team | Issue | Push | Check | Channel | BlockerHint | Unmapped

  /** Which mapping an event goes to; an identity event without a team falls through. */
  function RouteOf(ev: Event): Route {
    if IsPullRequest(ev) then PullRequest
    else if IsIdentity(ev) && (MapTeamMembership(ev).nodes != [] || MapTeamMembership(ev).edges != []) then Team
    else if IsIssue(ev) then Issue
    else if StartsWith(ev.eventType, "push") then Push
    else if IsCheck(ev.eventType) then Check
    else if StartsWith(ev.eventType, "slack.") || StartsWith(ev.eventType, "teams.") then Channel
    else if Contains(Lower(ev.eventType), "block") then BlockerHint
    else Unmapped
  }

  function MapBy(rules: Rules, ev: Event, route: Route): Mutation {
    match route
    case PullRequest => MapPullRequest(rules, ev)
    case Team => MapTeamMembership(ev)
    case Issue => MapIssue(rules, ev)
    case Push => MapPush(ev)
    case Check => MapCheck(ev)
    case Channel => MapCommunication(ev)
    case BlockerHint => MapBlockerHint(ev)
    case Unmapped => EmptyMutation
  }

  function MapEvent(rules: Rules, ev: Event): Mutation {
    MapBy(rules, ev, RouteOf(ev))
  }

  // --- What every mapping guarantees -----------------------------------------------------------

  /** Everything a mutation writes carries the event's tenant. */
  ghost predicate OneTenant(m: Mutation, tenant: string) {
    && (forall n :: n in m.nodes ==> n.tenantId == tenant)
    && (forall e :: e in m.edges ==> e.tenantId == tenant)
    && (forall s :: s in m.states ==> s.tenantId == tenant)
  }

  ghost predicate HasNode(ns: seq<Node>, id: string) {
    exists n :: n in ns && n.nodeId == id
  }

  /** Both ends of every edge are written with it, BLOCKS edges excepted. */
  ghost predicate Anchored(m: Mutation) {
    forall e :: e in m.edges ==> e.edgeType == "BLOCKS" || (HasNode(m.nodes, e.fromId) && HasNode(m.nodes, e.toId))
  }

  ghost predicate Sound(m: Mutation, ev: Event) {
    OneTenant(m, ev.tenantId) && Anchored(m)
  }

  lemma {:induction false} FindNodeFinds(ns: seq<Node>, id: string)
    ensures FindNode(ns, id).Some? ==> FindNode(ns, id).value in ns && FindNode(ns, id).value.nodeId == id
  {
    if ns != [] {
      FindNodeFinds(ns[1..], id);
    }
  }

  /** Attaching an intent keeps a mutation sound when it starts with the acting person. */
  lemma MergeIntentSound(rules: Rules, base: Mutation, ev: Event, aboutId: string)
    requires Sound(base, ev) && base.nodes != [] && base.nodes[0].nodeType == "Person"
    ensures Sound(MergeIntent(rules, base, ev, aboutId), ev)
    ensures MergeIntent(rules, base, ev, aboutId).states == base.states
  {
    FindNodeFinds(base.nodes, aboutId);
    var r := MergeIntent(rules, base, ev, aboutId);
    if FindNode(base.nodes, aboutId).Some? && !EqIgnoreCase(FindNode(base.nodes, aboutId).value.nodeType, "Commit") {
      var about, owner := FindNode(base.nodes, aboutId).value, base.nodes[0];
      var m := AttachIntent(rules, ev, about, owner.nodeId);
      assert r.nodes == base.nodes + m.nodes && r.edges == base.edges + m.edges;
      assert owner in r.nodes && about in r.nodes && m.nodes[0] in r.nodes;
      forall e | e in r.edges
        ensures e.edgeType == "BLOCKS" || (HasNode(r.nodes, e.fromId) && HasNode(r.nodes, e.toId))
      {
        if e in base.edges && e.edgeType != "BLOCKS" {
          var a :| a in base.nodes && a.nodeId == e.fromId;
          var b :| b in base.nodes && b.nodeId == e.toId;
          assert a in r.nodes && b in r.nodes;
        } else if e !in base.edges {
          assert e in m.edges;
        }
      }
    }
  }

  lemma {:induction false} BlockEdgesAreBlocks(ev: Event, src: string, targets: seq<Json>)
    ensures forall e :: e in BlockEdges(ev, src, targets) ==> e.edgeType == "BLOCKS" && e.tenantId == ev.tenantId
  {
    if targets != [] {
      BlockEdgesAreBlocks(ev, src, targets[1..]);
    }
  }

  lemma PullRequestSound(rules: Rules, ev: Event)
    ensures Sound(MapPullRequest(rules, ev), ev) && MapPullRequest(rules, ev).states == [LifecycleState(ev)]
  {
    var person, repo, pr := PersonNode(ev), RepoNode(ev, RepoResource(ev)), PrNode(ev);
    var blocks := BlockEdges(ev, pr.nodeId, Items(ev.attributes.Get("blocks")));
    BlockEdgesAreBlocks(ev, pr.nodeId, Items(ev.attributes.Get("blocks")));
    var own := [EventEdge(ev, "AUTHORED", person.nodeId, pr.nodeId, NoProps),
                StableEdge(ev, "BELONGS_TO", pr.nodeId, repo.nodeId, NoProps)];
    var base := Mutation([person, repo, pr], own + blocks, [LifecycleState(ev)]);
    assert person in base.nodes && repo in base.nodes && pr in base.nodes;
    assert Sound(base, ev);
    MergeIntentSound(rules, base, ev, pr.nodeId);
  }

  lemma IssueSound(rules: Rules, ev: Event)
    ensures Sound(MapIssue(rules, ev), ev) && MapIssue(rules, ev).states == [StatusState(ev)]
  {
    var person, issue := PersonNode(ev), IssueNode(ev);
    var authored := EventEdge(ev, "AUTHORED", person.nodeId, issue.nodeId, NoProps);
    match AssigneeKey(ev.attributes)
    case Some(key) =>
      var assignee := PersonNodeForKey(ev, key);
      var base := Mutation([person, issue, assignee],
        [authored, StableEdge(ev, "ASSIGNED_TO", issue.nodeId, assignee.nodeId,
            JObj(map["assignee_key" := JStr(key)]))],
        [StatusState(ev)]);
      assert person in base.nodes && issue in base.nodes && assignee in base.nodes;
      MergeIntentSound(rules, base, ev, issue.nodeId);
    case None =>
      var base := Mutation([person, issue],
        if Contains(Lower(ev.eventType), "assign")
        then [authored, StableEdge(ev, "ASSIGNED_TO", issue.nodeId, person.nodeId, NoProps)]
        else [authored],
        [StatusState(ev)]);
      assert person in base.nodes && issue in base.nodes;
      MergeIntentSound(rules, base, ev, issue.nodeId);
  }

  lemma {:induction false} CommitNodesTenant(ev: Event, repo: string, commits: seq<Json>)
    ensures forall n :: n in CommitNodes(ev, repo, commits) ==> n.tenantId == ev.tenantId
  {
    if commits != [] {
      CommitNodesTenant(ev, repo, commits[1..]);
    }
  }

  lemma {:induction false} AuthoredEdgesAnchored(ev: Event, person: string, commits: seq<Node>)
    ensures forall e :: e in AuthoredEdges(ev, person, commits) ==>
              e.tenantId == ev.tenantId && e.fromId == person && HasNode(commits, e.toId)
  {
    if commits != [] {
      AuthoredEdgesAnchored(ev, person, commits[1..]);
      forall e | e in AuthoredEdges(ev, person, commits) ensures HasNode(commits, e.toId) {
        if e in AuthoredEdges(ev, person, commits[1..]) {
          var n :| n in commits[1..] && n.nodeId == e.toId;
          assert n in commits;
        } else {
          assert commits[0] in commits;
        }
      }
    }
  }

  lemma PushSound(ev: Event)
    ensures Sound(MapPush(ev), ev) && MapPush(ev).states == []
  {
    if PushRepo(ev) != "" {
      var person, repo := PersonNode(ev), RepoNode(ev, PushRepo(ev));
      var items := Items(ev.attributes.Get("commits"));
      var commits := CommitNodes(ev, PushRepo(ev), if |items| <= 20 then items else items[..20]);
      CommitNodesTenant(ev, PushRepo(ev), if |items| <= 20 then items else items[..20]);
      AuthoredEdgesAnchored(ev, person.nodeId, commits);
      var m := MapPush(ev);
      assert m.nodes == [person, repo] + commits;
      assert person in m.nodes && repo in m.nodes;
      forall e | e in AuthoredEdges(ev, person.nodeId, commits) ensures HasNode(m.nodes, e.toId) {
        var n :| n in commits && n.nodeId == e.toId;
        assert n in m.nodes;
      }
    }
  }

  lemma PairSound(m: Mutation, ev: Event)
    requires m.nodes != [] ==> |m.nodes| == 2 && |m.edges| == 1 && OneTenant(m, ev.tenantId)
    requires m.nodes != [] ==> m.edges[0].fromId == m.nodes[0].nodeId && m.edges[0].toId == m.nodes[1].nodeId
    requires m.nodes == [] ==> m.edges == []
    requires m.states == []
    ensures Sound(m, ev)
  {
    if m.nodes != [] {
      assert m.nodes[0] in m.nodes && m.nodes[1] in m.nodes;
    }
  }

  function StatesFor(ev: Event, route: Route): seq<EntityState> {
    match route
    case PullRequest => [LifecycleState(ev)]
    case Issue => [StatusState(ev)]
    case _ => []
  }

  /**
   * Every event maps to a mutation of its own tenant in which only BLOCKS edges may point outside, and
   * that writes one lifecycle state for a pull request, one status for an issue, and no state otherwise.
   */
  lemma MapEventSound(rules: Rules, ev: Event, route: Route)
    ensures Sound(MapBy(rules, ev, route), ev)
    ensures MapBy(rules, ev, route).states == StatesFor(ev, route)
  {
    match route
    case PullRequest => PullRequestSound(rules, ev);
    case Team => PairSound(MapTeamMembership(ev), ev);
    case Issue => IssueSound(rules, ev);
    case Push => PushSound(ev);
    case Check => PairSound(MapCheck(ev), ev);
    case Channel => PairSound(MapCommunication(ev), ev);
    case BlockerHint =>
    case Unmapped =>
  }
}
