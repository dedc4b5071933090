/**
 The worklist that bounds decoded architecture JSON
 (pipeline/architecture_validation_workflow.py:62-74).
 */
module JsonWorklist {
  import opened Common

  /** Decoded JSON; an object keeps its values in the order of its keys. */
  datatype Json = Scalar | Array(items: seq<Json>) | Object(keys: seq<string>, values: seq<Json>)

  function Children(j: Json): seq<Json> {
    match j
    case Scalar => []
    case Array(items) => items
    case Object(_, values) => values
  }

  function Nodes(j: Json): (n: nat)
    ensures n > 0
    decreases j, |Children(j)| + 1
  {
    1 + NodesOf(j, |Children(j)|)
  }

  /** The nodes below the first `k` children. */
  function NodesOf(j: Json, k: nat): (n: nat)
    requires k <= |Children(j)|
    ensures k <= n
    decreases j, k
  {
    if k == 0 then 0 else NodesOf(j, k - 1) + Nodes(Children(j)[k - 1])
  }

  /** Some node lies at this depth or deeper; the root is at depth 0. */
  ghost predicate Deeper(j: Json, depth: int) {
    depth <= 0 || exists k | 0 <= k < |Children(j)| :: Deeper(Children(j)[k], depth - 1)
  }

  ghost predicate Shallow(j: Json, maxDepth: int) { !Deeper(j, maxDepth + 1) }

  datatype Pending = Pending(item: Json, depth: nat)

  function TotalNodes(ps: seq<Pending>): (n: nat)
    ensures |ps| <= n
  {
    if ps == [] then 0 else TotalNodes(ps[..|ps| - 1]) + Nodes(ps[|ps| - 1].item)
  }

  ghost predicate AllShallow(ps: seq<Pending>, maxDepth: int) {
    forall k | 0 <= k < |ps| :: Shallow(ps[k].item, maxDepth - ps[k].depth)
  }

  datatype Rejection = StructureAllowance | NodeAllowance

  lemma TotalPush(ps: seq<Pending>, p: Pending)
    ensures TotalNodes(ps + [p]) == TotalNodes(ps) + Nodes(p.item)
  {
    assert (ps + [p])[..|ps|] == ps;
  }

  lemma ShallowStep(j: Json, room: int)
    ensures Shallow(j, room) <==> room >= 0 && forall k | 0 <= k < |Children(j)| :: Shallow(Children(j)[k], room - 1)
  {
  }

  /**
   The worklist of `_decode` accepts a value exactly when it has at most `maxNodes` nodes and none
   deeper than `maxDepth`; it never discovers more nodes than allowed, and it ends. A value within the
   node allowance is refused for its depth, and one within the depth allowance for its nodes.
   */
  method CheckStructure(value: Json, maxNodes: int, maxDepth: int) returns (refusal: Option<Rejection>, ghost peak: nat)
    ensures refusal.None? <==> Nodes(value) <= maxNodes && Shallow(value, maxDepth)
    ensures peak <= if maxNodes < 1 then 1 else maxNodes
    ensures refusal.None? ==> peak == Nodes(value)
    ensures refusal.Some? && Nodes(value) <= maxNodes ==> refusal.value == StructureAllowance
    ensures refusal.Some? && Shallow(value, maxDepth) && maxNodes > 0 ==> refusal.value == NodeAllowance
  {
    hide Nodes, NodesOf, Shallow, TotalNodes, AllShallow;
    var pending, visited := [Pending(value, 0)], 0;
    peak := 1;
    OnlyRoot(value, maxDepth);
    while pending != []
      invariant 0 <= visited && (visited == 0 || visited <= maxNodes)
      invariant visited + TotalNodes(pending) == Nodes(value)
      invariant Shallow(value, maxDepth) <==> AllShallow(pending, maxDepth)
      invariant visited + |pending| == peak <= if maxNodes < 1 then 1 else maxNodes
      decreases TotalNodes(pending)
    {
      var Pending(item, depth) := pending[|pending| - 1];
      ghost var before := pending;
      pending := pending[..|pending| - 1];
      visited := visited + 1;
      assert before == pending + [Pending(item, depth)];
      TotalPush(pending, Pending(item, depth));
      if visited > maxNodes || depth > maxDepth {
        LastTooDeep(before, maxDepth);
        return Some(StructureAllowance), peak;
      }
      ghost var kept := pending;
      var full: bool;
      pending, full := PushChildren(pending, item, depth, visited, maxNodes);
      peak := visited + |pending|;
      NodesStep(item, 0);
      if full {
        return Some(NodeAllowance), peak;
      }
      ShallowSplit(before, kept, pending, item, depth, maxDepth);
    }
    NothingLeft(maxDepth);
    return None, peak;
  }

  /** The inner loop: push the children one by one, unless the node allowance runs out first. */
  method PushChildren(kept: seq<Pending>, item: Json, depth: nat, visited: nat, maxNodes: int)
    returns (pending: seq<Pending>, full: bool)
    requires visited + |kept| <= maxNodes
    ensures visited + |pending| <= maxNodes
    ensures full ==> visited + TotalNodes(kept) + NodesOf(item, |Children(item)|) > maxNodes
    ensures !full ==>
              && |pending| == |kept| + |Children(item)| && pending[..|kept|] == kept
              && (forall i | 0 <= i < |Children(item)| :: pending[|kept| + i] == Pending(Children(item)[i], depth + 1))
              && TotalNodes(pending) == TotalNodes(kept) + NodesOf(item, |Children(item)|)
  {
    hide Nodes, NodesOf, TotalNodes;
    pending := kept;
    var children := Children(item);
    NodesStep(item, 0);
    for k := 0 to |children|
      invariant |pending| == |kept| + k && pending[..|kept|] == kept
      invariant forall i | 0 <= i < k :: pending[|kept| + i] == Pending(children[i], depth + 1)
      invariant TotalNodes(pending) == TotalNodes(kept) + NodesOf(item, k)
      invariant visited + |pending| <= maxNodes
    {
      NodesStep(item, k);
      if visited + |pending| + 1 > maxNodes {
        MoreChildren(item, k);
        return pending, true;
      }
      TotalPush(pending, Pending(children[k], depth + 1));
      pending := pending + [Pending(children[k], depth + 1)];
    }
    return pending, false;
  }

  lemma OnlyRoot(value: Json, maxDepth: int)
    ensures TotalNodes([Pending(value, 0)]) == Nodes(value)
    ensures Shallow(value, maxDepth) <==> AllShallow([Pending(value, 0)], maxDepth)
  {
    hide Shallow, Nodes;
    TotalPush([], Pending(value, 0));
    assert [] + [Pending(value, 0)] == [Pending(value, 0)];
  }

  lemma NothingLeft(maxDepth: int)
    ensures TotalNodes([]) == 0 && AllShallow([], maxDepth)
  {
  }

  lemma LastTooDeep(ps: seq<Pending>, maxDepth: int)
    requires ps != []
    ensures ps[|ps| - 1].depth > maxDepth ==> !AllShallow(ps, maxDepth)
  {
    var last := ps[|ps| - 1];
    ShallowStep(last.item, maxDepth - last.depth);
  }

  lemma NodesStep(j: Json, k: nat)
    requires k <= |Children(j)|
    ensures NodesOf(j, 0) == 0 && Nodes(j) == 1 + NodesOf(j, |Children(j)|)
    ensures k < |Children(j)| ==> NodesOf(j, k + 1) == NodesOf(j, k) + Nodes(Children(j)[k])
  {
  }

  lemma MoreChildren(j: Json, k: nat)
    requires k < |Children(j)|
    ensures NodesOf(j, k) + 1 <= NodesOf(j, |Children(j)|)
    decreases |Children(j)| - k
  {
    if k + 1 < |Children(j)| { MoreChildren(j, k + 1); }
  }

  /** Replacing an item that is not too deep by its children keeps whether everything is shallow. */
  lemma ShallowSplit(before: seq<Pending>, kept: seq<Pending>, after: seq<Pending>, item: Json, depth: nat,
          maxDepth: int)
    requires before == kept + [Pending(item, depth)] && depth <= maxDepth
    requires |after| == |kept| + |Children(item)| && after[..|kept|] == kept
    requires forall i | 0 <= i < |Children(item)| :: after[|kept| + i] == Pending(Children(item)[i], depth + 1)
    ensures AllShallow(before, maxDepth) <==> AllShallow(after, maxDepth)
  {
    hide Shallow;
    ShallowStep(item, maxDepth - depth);
    assert forall i | 0 <= i < |kept| :: after[i] == kept[i] == before[i];
    if AllShallow(before, maxDepth) {
      assert before[|kept|] == Pending(item, depth);
      forall i | 0 <= i < |after| ensures Shallow(after[i].item, maxDepth - after[i].depth) {
        if i >= |kept| {
          assert after[|kept| + (i - |kept|)] == Pending(Children(item)[i - |kept|], depth + 1);
          assert Shallow(Children(item)[i - |kept|], maxDepth - depth - 1);
        }
      }
    }
    if AllShallow(after, maxDepth) {
      forall i | 0 <= i < |Children(item)| ensures Shallow(Children(item)[i], maxDepth - depth - 1) {
        assert after[|kept| + i] == Pending(Children(item)[i], depth + 1);
      }
    }
  }
}
