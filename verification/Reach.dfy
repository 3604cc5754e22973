/** Walks through an undirected multigraph, as a specification for the searches. */
module Reach {
  import opened GraphModel

  /** The far end of `e` seen from `cur`. */
  function Other(e: Edge, cur: string): Option<string> {
    if e.fromId == cur then Some(e.toId)
    else if e.toId == cur then Some(e.fromId)
    else None
  }

  /** `ids` runs through nodes of `nodes`, `es` are the edges taken between them. */
  ghost predicate IsWalk(nodes: map<string, Node>, edges: seq<Edge>, ids: seq<string>, es: seq<Edge>) {
    && |ids| == |es| + 1
    && (forall i :: 0 <= i < |ids| ==> ids[i] in nodes)
    && (forall i :: 0 <= i < |es| ==> es[i] in edges && Other(es[i], ids[i]) == Some(ids[i + 1]))
  }

  ghost predicate WalkBetween(nodes: map<string, Node>, edges: seq<Edge>, src: string, dst: string,
                              ids: seq<string>, es: seq<Edge>) {
    IsWalk(nodes, edges, ids, es) && ids[0] == src && ids[|es|] == dst
  }

  /** A walk of at most `k` edges joins `src` and `dst`. */
  ghost predicate Within(nodes: map<string, Node>, edges: seq<Edge>, src: string, dst: string, k: nat) {
    exists ids, es :: WalkBetween(nodes, edges, src, dst, ids, es) && |es| <= k
  }

  ghost predicate Adjacent(nodes: map<string, Node>, edges: seq<Edge>, a: string, b: string) {
    b in nodes && exists e :: e in edges && Other(e, a) == Some(b)
  }

  /** `x` is at most `k` steps from `src`, counted in breadth-first layers. */
  ghost predicate Near(nodes: map<string, Node>, edges: seq<Edge>, src: string, x: string, k: nat)
    decreases k, 0
  {
    if k == 0 then x == src
    else Near(nodes, edges, src, x, k - 1) || NextToNear(nodes, edges, src, x, k - 1)
  }

  ghost predicate NextToNear(nodes: map<string, Node>, edges: seq<Edge>, src: string, x: string, k: nat)
    decreases k, 1
  {
    exists a :: Near(nodes, edges, src, a, k) && Adjacent(nodes, edges, a, x)
  }

  lemma ExtendWalk(nodes: map<string, Node>, edges: seq<Edge>, ids: seq<string>, es: seq<Edge>, e: Edge, x: string)
    requires IsWalk(nodes, edges, ids, es) && e in edges && x in nodes && Other(e, ids[|es|]) == Some(x)
    ensures WalkBetween(nodes, edges, ids[0], x, ids + [x], es + [e])
  {
  }

  lemma EmptyWalk(nodes: map<string, Node>, edges: seq<Edge>, src: string)
    requires src in nodes
    ensures Within(nodes, edges, src, src, 0)
  {
    assert WalkBetween(nodes, edges, src, src, [src], []);
  }

  lemma WithinStep(nodes: map<string, Node>, edges: seq<Edge>, src: string, a: string, x: string, k: nat)
    requires Within(nodes, edges, src, a, k) && Adjacent(nodes, edges, a, x)
    ensures Within(nodes, edges, src, x, k + 1)
  {
    var ids, es :| WalkBetween(nodes, edges, src, a, ids, es) && |es| <= k;
    var e :| e in edges && Other(e, a) == Some(x);
    ExtendWalk(nodes, edges, ids, es, e, x);
  }

  lemma {:induction false} NearToWalk(nodes: map<string, Node>, edges: seq<Edge>, src: string, x: string, k: nat)
    requires src in nodes && Near(nodes, edges, src, x, k)
    ensures Within(nodes, edges, src, x, k)
    decreases k
  {
    if k == 0 {
      EmptyWalk(nodes, edges, src);
    } else if Near(nodes, edges, src, x, k - 1) {
      NearToWalk(nodes, edges, src, x, k - 1);
    } else {
      var a :| Near(nodes, edges, src, a, k - 1) && Adjacent(nodes, edges, a, x);
      NearToWalk(nodes, edges, src, a, k - 1);
      WithinStep(nodes, edges, src, a, x, k - 1);
    }
  }

  lemma {:induction false} WalkToNear(nodes: map<string, Node>, edges: seq<Edge>, src: string,
                                      ids: seq<string>, es: seq<Edge>, k: nat)
    requires IsWalk(nodes, edges, ids, es) && ids[0] == src && |es| <= k
    ensures Near(nodes, edges, src, ids[|es|], k)
    decreases k
  {
    if |es| < k {
      WalkToNear(nodes, edges, src, ids, es, k - 1);
    } else if k > 0 {
      WalkToNear(nodes, edges, src, ids[..k], es[..k - 1], k - 1);
      assert Adjacent(nodes, edges, ids[k - 1], ids[k]) by {
        assert es[k - 1] in edges;
      }
      assert NextToNear(nodes, edges, src, ids[k], k - 1);
    }
  }

  /** The layers describe exactly the walks. */
  lemma NearIffWalk(nodes: map<string, Node>, edges: seq<Edge>, src: string, x: string, k: nat)
    requires src in nodes
    ensures Near(nodes, edges, src, x, k) <==> Within(nodes, edges, src, x, k)
  {
    if Near(nodes, edges, src, x, k) {
      NearToWalk(nodes, edges, src, x, k);
    }
    if Within(nodes, edges, src, x, k) {
      var ids, es :| WalkBetween(nodes, edges, src, x, ids, es) && |es| <= k;
      WalkToNear(nodes, edges, src, ids, es, k);
    }
  }

  lemma {:induction false} NearIsNode(nodes: map<string, Node>, edges: seq<Edge>, src: string, x: string, k: nat)
    requires src in nodes && Near(nodes, edges, src, x, k)
    ensures x in nodes
    decreases k
  {
    if k > 0 && Near(nodes, edges, src, x, k - 1) {
      NearIsNode(nodes, edges, src, x, k - 1);
    }
  }

  lemma {:induction false} NearGrows(nodes: map<string, Node>, edges: seq<Edge>, src: string, x: string, j: nat, k: nat)
    requires j <= k && Near(nodes, edges, src, x, j)
    ensures Near(nodes, edges, src, x, k)
    decreases k
  {
    if j < k {
      NearGrows(nodes, edges, src, x, j, k - 1);
    }
  }

  /** Once a layer adds nothing, no later layer does. */
  lemma {:induction false} NearStops(nodes: map<string, Node>, edges: seq<Edge>, src: string, x: string, j: nat, k: nat)
    requires forall y :: Near(nodes, edges, src, y, j + 1) ==> Near(nodes, edges, src, y, j)
    requires j <= k && Near(nodes, edges, src, x, k)
    ensures Near(nodes, edges, src, x, j)
    decreases k
  {
    if j < k {
      if Near(nodes, edges, src, x, k - 1) {
        NearStops(nodes, edges, src, x, j, k - 1);
      } else {
        var a :| Near(nodes, edges, src, a, k - 1) && Adjacent(nodes, edges, a, x);
        NearStops(nodes, edges, src, a, j, k - 1);
        assert NextToNear(nodes, edges, src, x, j);
      }
    }
  }
}
