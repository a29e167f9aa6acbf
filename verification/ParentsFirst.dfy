/** Parents-first ordering of ledger nodes, on any list of distinct ids, cycles included. */
module ParentsFirst {
  import opened Prelude
  import opened LedgerModel

  function IdSet(nodes: seq<NodeRow>): set<string> {
    set i | 0 <= i < |nodes| :: nodes[i].nodeId
  }

  lemma IdSetSnoc(nodes: seq<NodeRow>, n: NodeRow)
    ensures IdSet(nodes + [n]) == IdSet(nodes) + {n.nodeId}
  {
    var r := nodes + [n];
    assert r[|nodes|] == n && forall i :: 0 <= i < |nodes| ==> r[i] == nodes[i];
  }

  lemma NoIdsNoNodes(nodes: seq<NodeRow>)
    ensures IdSet(nodes) == {} <==> nodes == []
  {
    if nodes != [] { assert nodes[0].nodeId in IdSet(nodes); }
  }

  predicate DistinctNodes(nodes: seq<NodeRow>) {
    forall i, j :: 0 <= i < j < |nodes| ==> nodes[i].nodeId != nodes[j].nodeId
  }

  /** The parent is in the list. */
  predicate ParentInSet(nodes: seq<NodeRow>, n: NodeRow) {
    n.row.parentId.Some? && n.row.parentId.value in IdSet(nodes)
  }

  predicate ParentReady(inSet: set<string>, placed: set<string>, n: NodeRow) {
    n.row.parentId.None? || n.row.parentId.value !in inSet || n.row.parentId.value in placed
  }

  /** One pass over the list from index `i`: place every node whose parent is ready. */
  function Pass(nodes: seq<NodeRow>, i: nat, out: seq<NodeRow>): (r: seq<NodeRow>)
    requires i <= |nodes|
    ensures out <= r
    decreases |nodes| - i
  {
    if i == |nodes| then out
    else if nodes[i].nodeId !in IdSet(out) && ParentReady(IdSet(nodes), IdSet(out), nodes[i])
    then Pass(nodes, i + 1, out + [nodes[i]])
    else Pass(nodes, i + 1, out)
  }

  /** Passes until everything is placed or a pass makes no progress. */
  function Rounds(nodes: seq<NodeRow>, out: seq<NodeRow>): seq<NodeRow>
    decreases |nodes| - |out|
  {
    if |out| >= |nodes| then out
    else
      var next := Pass(nodes, 0, out);
      if next == out then out else Rounds(nodes, next)
  }

  /** The nodes not placed, in input order. */
  function Unplaced(nodes: seq<NodeRow>, placed: set<string>): seq<NodeRow> {
    if nodes == [] then []
    else Unplaced(nodes[..|nodes| - 1], placed) +
         (if nodes[|nodes| - 1].nodeId in placed then [] else [nodes[|nodes| - 1]])
  }

  function OrderOf(nodes: seq<NodeRow>): seq<NodeRow> {
    Rounds(nodes, []) + Unplaced(nodes, IdSet(Rounds(nodes, [])))
  }

  method OrderParentsFirst(nodes: seq<NodeRow>) returns (out: seq<NodeRow>)
    ensures out == OrderOf(nodes)
  {
    var inSet := IdSet(nodes);
    var placed: set<string> := {};
    out := [];
    var progress := true;
    while |out| < |nodes| && progress
      invariant placed == IdSet(out)
      invariant progress ==> Rounds(nodes, []) == Rounds(nodes, out)
      invariant !progress ==> Rounds(nodes, []) == out
      decreases |nodes| - |out|, progress
    {
      progress := false;
      ghost var start := out;
      for i := 0 to |nodes|
        invariant placed == IdSet(out) && start <= out
        invariant progress <==> out != start
        invariant Pass(nodes, i, out) == Pass(nodes, 0, start)
      {
        if nodes[i].nodeId !in placed && ParentReady(inSet, placed, nodes[i]) {
          IdSetSnoc(out, nodes[i]);
          out := out + [nodes[i]];
          placed := placed + {nodes[i].nodeId};
          progress := true;
        }
      }
    }
    ghost var done := out;
    for i := 0 to |nodes|
      invariant out == done + Unplaced(nodes[..i], placed)
    {
      assert nodes[..i + 1][..i] == nodes[..i];
      if nodes[i].nodeId !in placed { out := out + [nodes[i]]; }
    }
    assert nodes[..|nodes|] == nodes;
  }

  // ----- what the order means -----

  /** The parent chain leaves the list within `k` steps. */
  ghost predicate ChainLeavesWithin(nodes: seq<NodeRow>, n: NodeRow, k: nat)
    decreases k
  {
    !ParentInSet(nodes, n) ||
    (k > 0 && exists m :: m in nodes && Some(m.nodeId) == n.row.parentId && ChainLeavesWithin(nodes, m, k - 1))
  }

  /** The parent chain leaves the list; otherwise the node is on or below a parent cycle. */
  ghost predicate ChainLeaves(nodes: seq<NodeRow>, n: NodeRow) {
    exists k: nat :: ChainLeavesWithin(nodes, n, k)
  }

  /** The parent comes earlier. */
  predicate ParentBefore(nodes: seq<NodeRow>, out: seq<NodeRow>, i: nat)
    requires i < |out|
  {
    ParentInSet(nodes, out[i]) ==> exists j :: 0 <= j < i && Some(out[j].nodeId) == out[i].row.parentId
  }

  /** Distinct members of the list, each leaving it and each after its parent. */
  ghost predicate WellPlaced(nodes: seq<NodeRow>, out: seq<NodeRow>) {
    && DistinctNodes(out)
    && (forall i :: 0 <= i < |out| ==> out[i] in nodes && ChainLeaves(nodes, out[i]))
    && (forall i :: 0 <= i < |out| ==> ParentBefore(nodes, out, i))
  }

  lemma PlaceOne(nodes: seq<NodeRow>, out: seq<NodeRow>, n: NodeRow)
    requires WellPlaced(nodes, out) && n in nodes && n.nodeId !in IdSet(out)
    requires ParentReady(IdSet(nodes), IdSet(out), n)
    ensures WellPlaced(nodes, out + [n])
  {
    var r := out + [n];
    if ParentInSet(nodes, n) {
      var j :| 0 <= j < |out| && out[j].nodeId == n.row.parentId.value;
      var k: nat :| ChainLeavesWithin(nodes, out[j], k);
      assert out[j] in nodes && ChainLeavesWithin(nodes, n, k + 1);
      assert r[j] == out[j];
    } else {
      assert ChainLeavesWithin(nodes, n, 0);
    }
    forall i | 0 <= i < |r|
      ensures ParentBefore(nodes, r, i)
    {
      if i < |out| {
        assert ParentBefore(nodes, out, i);
        if ParentInSet(nodes, out[i]) {
          var j :| 0 <= j < i && Some(out[j].nodeId) == out[i].row.parentId;
          assert r[j] == out[j];
        }
      }
    }
    assert forall i :: 0 <= i < |out| ==> out[i].nodeId in IdSet(out);
  }

  lemma {:induction false} PassKeeps(nodes: seq<NodeRow>, i: nat, out: seq<NodeRow>)
    requires i <= |nodes| && WellPlaced(nodes, out)
    ensures WellPlaced(nodes, Pass(nodes, i, out))
    decreases |nodes| - i
  {
    if i < |nodes| {
      if nodes[i].nodeId !in IdSet(out) && ParentReady(IdSet(nodes), IdSet(out), nodes[i]) {
        PlaceOne(nodes, out, nodes[i]);
        PassKeeps(nodes, i + 1, out + [nodes[i]]);
      } else {
        PassKeeps(nodes, i + 1, out);
      }
    }
  }

  /** A pass without progress leaves no ready node behind. */
  lemma {:induction false} NoProgress(nodes: seq<NodeRow>, i: nat, out: seq<NodeRow>)
    requires i <= |nodes| && Pass(nodes, i, out) == out
    ensures forall j :: i <= j < |nodes| && ParentReady(IdSet(nodes), IdSet(out), nodes[j]) ==>
      nodes[j].nodeId in IdSet(out)
    decreases |nodes| - i
  {
    if i < |nodes| {
      assert out + [nodes[i]] <= Pass(nodes, i + 1, out + [nodes[i]]);
      if nodes[i].nodeId in IdSet(out) || !ParentReady(IdSet(nodes), IdSet(out), nodes[i]) {
        NoProgress(nodes, i + 1, out);
      }
    }
  }

  /** No unplaced node is ready. */
  predicate Stuck(nodes: seq<NodeRow>, out: seq<NodeRow>) {
    forall j :: 0 <= j < |nodes| && ParentReady(IdSet(nodes), IdSet(out), nodes[j]) ==> nodes[j].nodeId in IdSet(out)
  }

  lemma {:induction false} RoundsEndStuck(nodes: seq<NodeRow>, out: seq<NodeRow>)
    requires DistinctNodes(nodes) && WellPlaced(nodes, out)
    ensures WellPlaced(nodes, Rounds(nodes, out)) && Stuck(nodes, Rounds(nodes, out))
    decreases |nodes| - |out|
  {
    if |out| >= |nodes| {
      EveryoneIsPlaced(nodes, out);
    } else if Pass(nodes, 0, out) == out {
      NoProgress(nodes, 0, out);
    } else {
      PassKeeps(nodes, 0, out);
      RoundsEndStuck(nodes, Pass(nodes, 0, out));
    }
  }

  lemma {:induction false} IdSetSize(nodes: seq<NodeRow>)
    requires DistinctNodes(nodes)
    ensures |IdSet(nodes)| == |nodes|
  {
    if nodes != [] {
      var init, last := nodes[..|nodes| - 1], nodes[|nodes| - 1];
      IdSetSize(init);
      assert last.nodeId !in IdSet(init);
      assert IdSet(nodes) == IdSet(init) + {last.nodeId} by {
        assert nodes == init + [last] && nodes[|init|] == last;
      }
    }
  }

  lemma EveryoneIsPlaced(nodes: seq<NodeRow>, out: seq<NodeRow>)
    requires DistinctNodes(nodes) && WellPlaced(nodes, out) && |out| >= |nodes|
    ensures IdSet(out) == IdSet(nodes)
  {
    IdSetSize(nodes);
    IdSetSize(out);
    assert IdSet(out) <= IdSet(nodes);
    SubsetOfSameSize(IdSet(out), IdSet(nodes));
  }

  lemma SubsetOfSameSize(a: set<string>, b: set<string>)
    requires a <= b && |a| >= |b|
    ensures a == b
  {
    assert b == a + (b - a);
    assert |b| == |a| + |b - a|;
  }

  /** Once no node is ready, every node whose chain leaves the list has been placed. */
  lemma {:induction false} LeaversArePlaced(nodes: seq<NodeRow>, out: seq<NodeRow>, n: NodeRow, k: nat)
    requires Stuck(nodes, out) && n in nodes && ChainLeavesWithin(nodes, n, k)
    ensures n.nodeId in IdSet(out)
    decreases k
  {
    if ParentInSet(nodes, n) {
      var m :| m in nodes && Some(m.nodeId) == n.row.parentId && ChainLeavesWithin(nodes, m, k - 1);
      LeaversArePlaced(nodes, out, m, k - 1);
    }
    var j :| 0 <= j < |nodes| && nodes[j] == n;
    assert ParentReady(IdSet(nodes), IdSet(out), nodes[j]);
  }

  lemma {:induction false} UnplacedIsSelection(nodes: seq<NodeRow>, placed: set<string>)
    ensures forall n :: n in Unplaced(nodes, placed) <==> n in nodes && n.nodeId !in placed
    ensures DistinctNodes(nodes) ==> DistinctNodes(Unplaced(nodes, placed))
  {
    if nodes != [] {
      var init, last := nodes[..|nodes| - 1], nodes[|nodes| - 1];
      UnplacedIsSelection(init, placed);
      assert nodes == init + [last];
      if DistinctNodes(nodes) && last.nodeId !in placed {
        forall i | 0 <= i < |Unplaced(init, placed)|
          ensures Unplaced(init, placed)[i].nodeId != last.nodeId
        {
          assert Unplaced(init, placed)[i] in init;
        }
      }
    }
  }

  /**
   * The order of any list of distinct ids is a permutation of it. First come exactly the nodes whose parent chain
   * leaves the list, each after its parent; then, in input order, exactly the nodes on or below a parent cycle.
   */
  lemma OrderIsParentsFirst(nodes: seq<NodeRow>)
    requires DistinctNodes(nodes)
    ensures
      var placed := Rounds(nodes, []);
      && OrderOf(nodes) == placed + Unplaced(nodes, IdSet(placed))
      && WellPlaced(nodes, placed)
      && (forall n :: n in placed <==> n in nodes && ChainLeaves(nodes, n))
      && (forall n :: n in Unplaced(nodes, IdSet(placed)) <==> n in nodes && !ChainLeaves(nodes, n))
      && multiset(OrderOf(nodes)) == multiset(nodes)
  {
    var placed := Rounds(nodes, []);
    RoundsEndStuck(nodes, []);
    UnplacedIsSelection(nodes, IdSet(placed));
    forall n | n in nodes
      ensures n in placed <==> ChainLeaves(nodes, n)
      ensures n.nodeId in IdSet(placed) <==> n in placed
    {
      SameIdSameNode(nodes, placed, n);
      if ChainLeaves(nodes, n) {
        var k: nat :| ChainLeavesWithin(nodes, n, k);
        LeaversArePlaced(nodes, placed, n, k);
      }
    }
    OrderIsDistinct(nodes, placed);
    SameMembersSameMultiset(OrderOf(nodes), nodes);
  }

  lemma SameIdSameNode(nodes: seq<NodeRow>, placed: seq<NodeRow>, n: NodeRow)
    requires DistinctNodes(nodes) && n in nodes && forall i :: 0 <= i < |placed| ==> placed[i] in nodes
    ensures n.nodeId in IdSet(placed) <==> n in placed
  {}

  lemma OrderIsDistinct(nodes: seq<NodeRow>, placed: seq<NodeRow>)
    requires DistinctNodes(nodes) && DistinctNodes(placed)
    ensures DistinctNodes(placed + Unplaced(nodes, IdSet(placed)))
  {
    var rest := Unplaced(nodes, IdSet(placed));
    UnplacedIsSelection(nodes, IdSet(placed));
    forall i, j | 0 <= i < |placed| && 0 <= j < |rest|
      ensures placed[i].nodeId != rest[j].nodeId
    {
      assert rest[j] in rest;
      assert placed[i].nodeId in IdSet(placed);
    }
  }

  lemma {:induction false} CountInDistinct(s: seq<NodeRow>, n: NodeRow)
    requires DistinctNodes(s)
    ensures multiset(s)[n] == if n in s then 1 else 0
  {
    if s != [] {
      var init, last := s[..|s| - 1], s[|s| - 1];
      CountInDistinct(init, n);
      assert s == init + [last];
    }
  }

  lemma SameMembersSameMultiset(s: seq<NodeRow>, t: seq<NodeRow>)
    requires DistinctNodes(s) && DistinctNodes(t) && forall n :: n in s <==> n in t
    ensures multiset(s) == multiset(t)
  {
    forall n
      ensures multiset(s)[n] == multiset(t)[n]
    {
      CountInDistinct(s, n);
      CountInDistinct(t, n);
    }
  }

  // ----- a list that is already parents-first -----

  predicate AlreadyOrdered(nodes: seq<NodeRow>) {
    DistinctNodes(nodes) && forall i :: 0 <= i < |nodes| ==> ParentBefore(nodes, nodes, i)
  }

  lemma {:induction false} FirstPassPlacesAll(nodes: seq<NodeRow>, i: nat)
    requires AlreadyOrdered(nodes) && i <= |nodes|
    ensures Pass(nodes, i, nodes[..i]) == nodes
    decreases |nodes| - i
  {
    if i < |nodes| {
      assert ParentBefore(nodes, nodes, i);
      if ParentInSet(nodes, nodes[i]) {
        var j :| 0 <= j < i && Some(nodes[j].nodeId) == nodes[i].row.parentId;
        assert nodes[..i][j].nodeId in IdSet(nodes[..i]);
      }
      assert nodes[..i] + [nodes[i]] == nodes[..i + 1];
      FirstPassPlacesAll(nodes, i + 1);
    } else {
      assert nodes[..i] == nodes;
    }
  }

  lemma {:induction false} NothingUnplaced(nodes: seq<NodeRow>, placed: set<string>)
    requires IdSet(nodes) <= placed
    ensures Unplaced(nodes, placed) == []
  {
    if nodes != [] {
      var init := nodes[..|nodes| - 1];
      assert nodes[|nodes| - 1].nodeId in IdSet(nodes);
      assert forall i :: 0 <= i < |init| ==> init[i].nodeId == nodes[i].nodeId && nodes[i].nodeId in IdSet(nodes);
      NothingUnplaced(init, placed);
    }
  }

  /** A list that is already parents-first is left as it is. */
  lemma OrderedIsUnchanged(nodes: seq<NodeRow>)
    requires AlreadyOrdered(nodes)
    ensures OrderOf(nodes) == nodes
  {
    if nodes != [] {
      assert nodes[..0] == [];
      FirstPassPlacesAll(nodes, 0);
      assert Rounds(nodes, []) == Rounds(nodes, nodes) == nodes;
    }
    NothingUnplaced(nodes, IdSet(nodes));
  }
}
