/** What a single node says: demo data, claimed intent, and friction in its properties. */
module Signals {
  import opened GraphModel
  import Text

  /** Seconds. */
  const DAY := 86_400

  function OrElse<T>(a: Option<T>, b: Option<T>): Option<T> {
    if a.Some? then a else b
  }

  function AsStr(j: Option<Json>): Option<string> {
    match j
    case Some(JStr(s)) => Some(s)
    case _ => None
  }

  function UnwrapOr<T>(o: Option<T>, d: T): T {
    if o.Some? then o.value else d
  }

  predicate NodeIsDemo(n: Node) {
    n.properties.Bool("is_demo") == Some(true) ||
    UnwrapOr(n.properties.Str("seed"), "") != "" ||
    Text.Contains(Text.Lower(n.nodeId), "gu_demo_") ||
    Text.Contains(Text.Lower(n.nodeId), "demo-repo") ||
    Text.Contains(Text.Lower(n.resourceId), "demo-repo")
  }

  predicate IsIntent(n: Node) {
    Text.EqIgnoreCase(n.nodeType, "Intent")
  }

  function IntentTypeOf(n: Node): string {
    UnwrapOr(n.properties.Str("intent_type"), "")
  }

  function OwnerOf(n: Node): Option<string> {
    n.properties.Str("owner_node_id")
  }

  function AboutOf(n: Node): Option<string> {
    n.properties.Str("about_node_id")
  }

  predicate LooksLikeWork(n: Node) {
    var t := Text.Lower(n.nodeType);
    Text.Contains(t, "pull") || t == "issue" || Text.Contains(t, "merge_request") ||
    Text.StartsWith(n.nodeId, "pr:") || Text.StartsWith(n.nodeId, "issue:")
  }

  function LabelTexts(items: seq<Json>): seq<string> {
    if items == [] then []
    else
      (match OrElse(AsStr(Some(items[0])), items[0].Str("name"))
       case Some(s) => [Text.Lower(s)]
       case None => []) + LabelTexts(items[1..])
  }

  function WorkLabels(n: Node): seq<string> {
    (match n.properties.Get("labels")
     case Some(JArr(items)) => LabelTexts(items)
     case _ => []) +
    (match n.properties.Str("label")
     case Some(s) => [Text.Lower(s)]
     case None => [])
  }

  function WorkText(n: Node): string {
    Text.Lower(TextOr(n.properties, ["title", "summary"], n.displayName) + " " + TextOr(n.properties,
        ["body", "description"], ""))
  }

  function NonEmpty(evidence: seq<string>): Option<seq<string>> {
    if evidence == [] then None else Some(evidence)
  }

  /** The first pattern found in the text. */
  function FirstPattern(text: string, patterns: seq<string>): seq<string> {
    if patterns == [] then []
    else if Text.Contains(text, patterns[0]) then ["text:" + patterns[0]]
    else FirstPattern(text, patterns[1..])
  }

  function MergeFriction(n: Node): Option<seq<string>> {
    var state := Text.Lower(TextOr(n.properties, ["mergeable_state", "mergeableState"], ""));
    NonEmpty(
      (if n.properties.Bool("mergeable") == Some(false) then ["mergeable:false"] else []) +
      (if state in {"dirty", "conflicted", "unstable", "blocked"} then ["mergeable_state:" + state] else []) +
      FirstPattern(WorkText(n), ["merge conflict", "has conflicts", "conflicting files", "resolve conflicts",
                                 "fix merge conflicts", "conflicts with"]))
  }

  function Decimal(n: nat): string {
    if n < 10 then [('0' as int + n) as char] else Decimal(n / 10) + [('0' as int + n % 10) as char]
  }

  /** The first timestamp property that is at least a week old; `parse` reads the accepted date formats. */
  function FirstOld(p: Json, keys: seq<string>, asOf: int, parse: string -> Option<int>): seq<string> {
    if keys == [] then []
    else
      match OrElseParse(p.Str(keys[0]), parse)
      case Some(t) =>
        if asOf - t >= 7 * DAY then [keys[0] + "_age_days:" + Decimal((asOf - t) / DAY)]
        else FirstOld(p, keys[1..], asOf, parse)
      case None => FirstOld(p, keys[1..], asOf, parse)
  }

  function OrElseParse(s: Option<string>, parse: string -> Option<int>): Option<int> {
    if s.Some? then parse(s.value) else None
  }

  predicate HasReviewers(p: Json) {
    match FirstPresent(p, ["requested_reviewers", "requestedReviewers"])
    case Some(JArr(items)) => items != []
    case Some(JStr(s)) => s != ""
    case _ => false
  }

  predicate SaysStale(labels: seq<string>) {
    exists k | 0 <= k < |labels| :: Text.Contains(labels[k], "stale")
  }

  function StaleReview(n: Node, asOf: int, parse: string -> Option<int>): Option<seq<string>> {
    var t := Text.Lower(n.nodeType);
    var isPr := Text.Contains(t, "pull") || Text.Contains(t, "merge_request") || Text.StartsWith(n.nodeId, "pr:");
    var state := Text.Lower(TextOr(n.properties, ["state", "status", "lifecycle"], "open"));
    if state in {"closed", "merged", "done", "resolved", "declined"} then None
    else
      var stale := SaysStale(WorkLabels(n));
      var aged := FirstOld(n.properties,
          ["updated_at", "updatedAt", "last_activity_at", "pushed_at", "review_requested_at"], asOf, parse);
      var evidence := (if stale then ["label:stale"] else []) + aged +
        (if aged != [] && HasReviewers(n.properties) then ["review_requested_stall"] else []);
      if !isPr && !stale then None else NonEmpty(evidence)
  }

  function BadChecks(p: Json, checks: seq<(string, string)>): seq<string> {
    if checks == [] then []
    else
      var (key, bad) := checks[0];
      (match p.Str(key)
       case Some(s) => if Text.EqIgnoreCase(s, bad) then [key + ":" + s] else []
       case None => []) + BadChecks(p, checks[1..])
  }

  function FailLabels(labels: seq<string>): seq<string> {
    if labels == [] then []
    else
      var l := labels[0];
      (if l in {"ci-fail", "ci-failure", "checks-fail", "ci-failed"} || Text.Contains(l, "ci-fail") then ["label:" + l]
          else []) + FailLabels(labels[1..])
  }

  function CiFailure(n: Node): Option<seq<string>> {
    NonEmpty(
      BadChecks(n.properties,
        [("check_conclusion", "failure"), ("check_conclusion", "cancelled"), ("ci_status", "failure"),
            ("ci_status", "failed"),
         ("ci_status", "error"), ("status", "failure"), ("conclusion", "failure"), ("checks_state", "failure"),
         ("checks_state", "failing")]) +
      (if n.properties.Bool("ci_failed") == Some(true) then ["ci_failed:true"] else []) +
      (if n.properties.Bool("checks_passing") == Some(false) then ["checks_passing:false"] else []) +
      FailLabels(WorkLabels(n)))
  }

  // --- When there is a signal ---------------------------------------------------------

  /** One of these phrases occurs in the text. */
  predicate SaysOneOf(text: string, phrases: seq<string>) {
    exists k | 0 <= k < |phrases| :: Text.Contains(text, phrases[k])
  }

  lemma {:induction false} PatternFound(text: string, patterns: seq<string>)
    ensures FirstPattern(text, patterns) != [] <==> SaysOneOf(text, patterns)
  {
    if patterns != [] {
      PatternFound(text, patterns[1..]);
      assert Text.Contains(text, patterns[0]) ==> SaysOneOf(text, patterns);
      if SaysOneOf(text, patterns[1..]) {
        var k :| 0 <= k < |patterns[1..]| && Text.Contains(text, patterns[1..][k]);
        assert Text.Contains(text, patterns[k + 1]);
      }
      if k :| 0 < k < |patterns| && Text.Contains(text, patterns[k]) {
        assert Text.Contains(text, patterns[1..][k - 1]);
      }
    }
  }

  /** There is merge friction when the provider says so, in either of two ways, or the words do. */
  lemma FrictionIff(n: Node)
    ensures MergeFriction(n).Some? <==>
              n.properties.Get("mergeable") == Some(JBool(false)) ||
              Text.Lower(TextOr(n.properties, ["mergeable_state", "mergeableState"], "")) in
                {"dirty", "conflicted", "unstable", "blocked"} ||
              SaysOneOf(WorkText(n), ["merge conflict", "has conflicts", "conflicting files", "resolve conflicts",
                                      "fix merge conflicts", "conflicts with"])
  {
    PatternFound(WorkText(n), ["merge conflict", "has conflicts", "conflicting files", "resolve conflicts",
                               "fix merge conflicts", "conflicts with"]);
  }

  /** A date under one of the keys is at least a week back. */
  ghost predicate WeekOld(p: Json, keys: seq<string>, asOf: int, parse: string -> Option<int>) {
    exists k :: 0 <= k < |keys| && OldUnder(p, keys[k], asOf, parse)
  }

  predicate OldUnder(p: Json, key: string, asOf: int, parse: string -> Option<int>) {
    match p.Get(key)
    case Some(JStr(s)) => parse(s).Some? && parse(s).value + 7 * 24 * 60 * 60 <= asOf
    case _ => false
  }

  lemma {:induction false} OldFound(p: Json, keys: seq<string>, asOf: int, parse: string -> Option<int>)
    ensures FirstOld(p, keys, asOf, parse) != [] <==> WeekOld(p, keys, asOf, parse)
  {
    if keys != [] {
      OldFound(p, keys[1..], asOf, parse);
      assert keys == [keys[0]] + keys[1..];
      if k :| 0 <= k < |keys[1..]| && OldUnder(p, keys[1..][k], asOf, parse) {
        assert OldUnder(p, keys[k + 1], asOf, parse);
      }
      if k :| 0 <= k < |keys| && OldUnder(p, keys[k], asOf, parse) && k > 0 {
        assert OldUnder(p, keys[1..][k - 1], asOf, parse);
      }
    }
  }

  predicate IsPullRequest(n: Node) {
    SaysOneOf(Text.Lower(n.nodeType), ["pull", "merge_request"]) || "pr:" <= n.nodeId
  }

  /** A review is stale when it is open and labelled so, or belongs to a pull request untouched for a week. */
  lemma StaleIff(n: Node, asOf: int, parse: string -> Option<int>)
    ensures StaleReview(n, asOf, parse).Some? <==>
              Text.Lower(TextOr(n.properties, ["state", "status", "lifecycle"], "open")) !in
                {"closed", "merged", "done", "resolved", "declined"} &&
              ((exists k :: 0 <= k < |WorkLabels(n)| && Text.Contains(WorkLabels(n)[k], "stale")) ||
               (IsPullRequest(n) &&
                WeekOld(n.properties, ["updated_at", "updatedAt", "last_activity_at", "pushed_at",
                                       "review_requested_at"], asOf, parse)))
  {
    OldFound(n.properties, ["updated_at", "updatedAt", "last_activity_at", "pushed_at", "review_requested_at"], asOf,
             parse);
    var t, words := Text.Lower(n.nodeType), ["pull", "merge_request"];
    assert words[0] == "pull" && words[1] == "merge_request";
    assert Text.Contains(t, words[0]) ==> SaysOneOf(t, words);
    assert Text.Contains(t, words[1]) ==> SaysOneOf(t, words);
  }

  /** Time alone never ends staleness. */
  lemma StaleStays(n: Node, asOf: int, later: int, parse: string -> Option<int>)
    requires asOf <= later && StaleReview(n, asOf, parse).Some?
    ensures StaleReview(n, later, parse).Some?
  {
    StaleIff(n, asOf, parse);
    StaleIff(n, later, parse);
    var keys := ["updated_at", "updatedAt", "last_activity_at", "pushed_at", "review_requested_at"];
    if k :| 0 <= k < |keys| && OldUnder(n.properties, keys[k], asOf, parse) {
      assert OldUnder(n.properties, keys[k], later, parse);
    }
  }

  /** The text under `key`, in any case. */
  predicate Reads(p: Json, key: string, text: string) {
    match p.Get(key)
    case Some(JStr(s)) => Text.Lower(s) == text
    case _ => false
  }

  lemma {:induction false} BadChecksFound(p: Json, checks: seq<(string, string)>)
    ensures BadChecks(p, checks) != [] <==> exists k :: 0 <= k < |checks| && BadAt(p, checks, k)
  {
    if checks != [] {
      BadChecksFound(p, checks[1..]);
      if k :| 0 <= k < |checks[1..]| && BadAt(p, checks[1..], k) {
        assert BadAt(p, checks, k + 1);
      }
      if k :| 0 <= k < |checks| && BadAt(p, checks, k) {
        assert k > 0 ==> BadAt(p, checks[1..], k - 1);
      }
      assert BadAt(p, checks, 0) <==> BadChecks(p, checks) != BadChecks(p, checks[1..]);
    }
  }

  predicate BadAt(p: Json, checks: seq<(string, string)>, k: int)
    requires 0 <= k < |checks|
  {
    p.Str(checks[k].0).Some? && Text.EqIgnoreCase(p.Str(checks[k].0).value, checks[k].1)
  }

  lemma {:induction false} FailLabelsFound(labels: seq<string>)
    ensures FailLabels(labels) != [] <==> SaysFailing(labels)
  {
    if labels != [] {
      FailLabelsFound(labels[1..]);
      assert labels == [labels[0]] + labels[1..];
      FailWords();
    }
  }

  lemma FailWords()
    ensures Text.Contains("ci-fail", "ci-fail") && Text.Contains("ci-failure", "ci-fail")
    ensures Text.Contains("ci-failed", "ci-fail")
  {
    assert "ci-fail"[0..7] == "ci-fail" && "ci-failure"[0..7] == "ci-fail" && "ci-failed"[0..7] == "ci-fail";
    assert Text.OccursAt("ci-fail", "ci-fail", 0) && Text.OccursAt("ci-failure", "ci-fail", 0);
    assert Text.OccursAt("ci-failed", "ci-fail", 0);
  }

  /** The properties providers report checks in, and what they say there when one fails. */
  const Failing: seq<(string, string)> :=
    [("check_conclusion", "failure"), ("check_conclusion", "cancelled"), ("ci_status", "failure"),
     ("ci_status", "failed"), ("ci_status", "error"), ("status", "failure"), ("conclusion", "failure"),
     ("checks_state", "failure"), ("checks_state", "failing")]

  lemma FailingReads(p: Json, k: int)
    requires 0 <= k < |Failing|
    ensures BadAt(p, Failing, k) <==> Reads(p, Failing[k].0, Failing[k].1)
  {
    LowerWords();
    assert Failing[k].1 in {"failure", "cancelled", "failed", "error", "failing"};
  }

  lemma LowerWords()
    ensures forall w :: w in {"failure", "cancelled", "failed", "error", "failing"} ==> Text.Lower(w) == w
  {
  }

  /** A check fails when one of the properties a provider may use says so, or a label does. */
  lemma CiIff(n: Node)
    ensures var p := n.properties;
            CiFailure(n).Some? <==>
              (exists k :: 0 <= k < |Failing| && Reads(p, Failing[k].0, Failing[k].1)) ||
              p.Get("ci_failed") == Some(JBool(true)) || p.Get("checks_passing") == Some(JBool(false)) ||
              SaysFailing(WorkLabels(n))
  {
    BadChecksFound(n.properties, Failing);
    forall k | 0 <= k < |Failing|
      ensures BadAt(n.properties, Failing, k) <==> Reads(n.properties, Failing[k].0, Failing[k].1)
    {
      FailingReads(n.properties, k);
    }
    FailLabelsFound(WorkLabels(n));
  }

  ghost predicate SaysFailing(labels: seq<string>) {
    exists k :: 0 <= k < |labels| && (labels[k] == "checks-fail" || Text.Contains(labels[k], "ci-fail"))
  }

  /** The entry of a list of labels is this text, or an object of this name. */
  ghost predicate IsLabel(j: Json, text: string) {
    j == JStr(text) || j.Get("name") == Some(JStr(text))
  }

  lemma {:induction false} LabelTextsMean(items: seq<Json>, l: string)
    ensures l in LabelTexts(items) <==> exists j, text :: j in items && IsLabel(j, text) && l == Text.Lower(text)
  {
    if items != [] {
      LabelTextsMean(items[1..], l);
      assert items == [items[0]] + items[1..];
      assert forall text ::
          IsLabel(items[0], text) <==> OrElse(AsStr(Some(items[0])), items[0].Str("name")) == Some(text);
    }
  }

  /** The labels of work, in lower case: those of the list `labels` and the single `label`. */
  lemma WorkLabelsMean(n: Node, l: string)
    ensures l in WorkLabels(n) <==>
              (exists items, j, text ::
                n.properties.Get("labels") == Some(JArr(items)) && j in items && IsLabel(j, text) &&
                l == Text.Lower(text)) ||
              exists text :: n.properties.Get("label") == Some(JStr(text)) && l == Text.Lower(text)
  {
    match n.properties.Get("labels")
    case Some(JArr(items)) => LabelTextsMean(items, l);
    case _ =>
  }
}
