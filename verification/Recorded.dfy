/** Which inputs of a run take effect, and which nodes they leave in the graph. */
module Recorded {
  import opened EventMapping
  import opened GraphModel
  import opened GraphOps
  import opened Projection

  /** The input at `k` is the first with its tenant and event id; later ones are duplicates. */
  ghost predicate IsRecorded(inputs: seq<Input>, k: int) {
    0 <= k < |inputs| && forall j :: 0 <= j < k ==> IdOf(inputs[j]) != IdOf(inputs[k])
  }

  lemma RecordedPrefix(inputs: seq<Input>, k: int)
    requires inputs != [] && k < |inputs| - 1
    ensures IsRecorded(inputs, k) <==> IsRecorded(inputs[..|inputs| - 1], k)
  {
  }

  lemma LastRecordedIff(rules: Rules, inputs: seq<Input>)
    requires inputs != []
    ensures var init, last := inputs[..|inputs| - 1], inputs[|inputs| - 1];
            IsRecorded(inputs, |inputs| - 1) <==> IdOf(last) !in Run(rules, EmptySystem, init).graph.applied
  {
    var init, last := inputs[..|inputs| - 1], inputs[|inputs| - 1];
    AppliedIds(rules, init, IdOf(last));
    if !IsRecorded(inputs, |inputs| - 1) {
      var j :| 0 <= j < |init| && IdOf(inputs[j]) == IdOf(last);
      assert init[j] in init;
    }
  }

  lemma RecordedOnce(inputs: seq<Input>, j: int, k: int)
    requires IsRecorded(inputs, j) && IsRecorded(inputs, k) && IdOf(inputs[j]) == IdOf(inputs[k])
    ensures j == k
  {
  }

  // --- Nodes ------------------------------------------------------------------------

  /** The nodes a run writes, in order: those of every recorded event. */
  ghost function NodesWritten(rules: Rules, inputs: seq<Input>): seq<Node> {
    if inputs == [] then []
    else
      NodesWritten(rules, inputs[..|inputs| - 1]) +
      if IsRecorded(inputs, |inputs| - 1) && inputs[|inputs| - 1].Ev?
      then MapEvent(rules, inputs[|inputs| - 1].event).nodes else []
  }

  /** `n` is the last of the nodes with its tenant and id. */
  ghost predicate LastNode(ns: seq<Node>, k: (string, string), n: Node) {
    exists i :: 0 <= i < |ns| && ns[i] == n && NodeKey(n) == k && forall j :: i < j < |ns| ==> NodeKey(ns[j]) != k
  }

  lemma {:induction false} PutNodesAppend(m: map<(string, string), Node>, a: seq<Node>, b: seq<Node>)
    ensures PutNodes(m, a + b) == PutNodes(PutNodes(m, a), b)
    decreases |a|
  {
    if a == [] {
      assert a + b == b;
    } else {
      assert (a + b)[1..] == a[1..] + b;
      PutNodesAppend(m[NodeKey(a[0]) := a[0]], a[1..], b);
    }
  }

  lemma {:induction false} PutNodesKeepsLast(ns: seq<Node>, k: (string, string))
    ensures k in PutNodes(map[], ns) <==> exists n :: n in ns && NodeKey(n) == k
    ensures k in PutNodes(map[], ns) ==> LastNode(ns, k, PutNodes(map[], ns)[k])
  {
    if ns != [] {
      var init, x := ns[..|ns| - 1], ns[|ns| - 1];
      assert ns == init + [x] && [x][1..] == [];
      PutNodesKeepsLast(init, k);
      PutNodesAppend(map[], init, [x]);
      if NodeKey(x) == k {
        assert ns[|ns| - 1] == x && x in ns;
      } else if k in PutNodes(map[], init) {
        var i :| 0 <= i < |init| && init[i] == PutNodes(map[], init)[k] && NodeKey(init[i]) == k &&
            forall j :: i < j < |init| ==> NodeKey(init[j]) != k;
        assert ns[i] == init[i];
      }
    }
  }

  lemma {:induction false} RunPutsNodes(rules: Rules, inputs: seq<Input>)
    ensures Run(rules, EmptySystem, inputs).graph.nodes == PutNodes(map[], NodesWritten(rules, inputs))
  {
    if inputs != [] {
      var init, last := inputs[..|inputs| - 1], inputs[|inputs| - 1];
      RunPutsNodes(rules, init);
      LastRecordedIff(rules, inputs);
      if IsRecorded(inputs, |inputs| - 1) && last.Ev? {
        PutNodesAppend(map[], NodesWritten(rules, init), MapEvent(rules, last.event).nodes);
      } else {
        assert NodesWritten(rules, init) + [] == NodesWritten(rules, init);
      }
    }
  }

  /** After any run the node under an id is the last one a recorded event wrote there. */
  lemma NodeIsLast(rules: Rules, inputs: seq<Input>, k: (string, string))
    ensures var ns, nodes := NodesWritten(rules, inputs), Run(rules, EmptySystem, inputs).graph.nodes;
            (k in nodes <==> exists n :: n in ns && NodeKey(n) == k) && (k in nodes ==> LastNode(ns, k, nodes[k]))
  {
    RunPutsNodes(rules, inputs);
    PutNodesKeepsLast(NodesWritten(rules, inputs), k);
  }
}
