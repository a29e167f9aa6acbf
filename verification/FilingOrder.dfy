/** The order of an emit: nodes are remembered as they were queued; parents and children are listed in that order. */
module FilingOrder {
  import opened Prelude
  import opened LedgerModel
  import opened Tracker
  import opened Emission
  import opened EmissionLaws
  import opened EmitCommand
  import opened LinkLaws

  predicate Before(ids: seq<string>, x: string, y: string) {
    exists a, b :: 0 <= a < b < |ids| && ids[a] == x && ids[b] == y
  }

  /** Some of the ids, in their order. */
  predicate Selects(some: seq<string>, ids: seq<string>) {
    && (forall x :: x in some ==> x in ids)
    && forall i, j :: 0 <= i < j < |some| ==> Before(ids, some[i], some[j])
  }

  lemma BeforeStays(ids: seq<string>, last: string, x: string, y: string)
    requires Before(ids, x, y)
    ensures Before(ids + [last], x, y)
  {
    var a, b :| 0 <= a < b < |ids| && ids[a] == x && ids[b] == y;
    assert (ids + [last])[a] == x && (ids + [last])[b] == y;
  }

  lemma LastIsAfter(ids: seq<string>, last: string, x: string)
    requires x in ids
    ensures Before(ids + [last], x, last)
  {
    var a :| 0 <= a < |ids| && ids[a] == x;
    assert (ids + [last])[a] == x && (ids + [last])[|ids|] == last;
  }

  lemma SelectsStays(some: seq<string>, ids: seq<string>, last: string)
    requires Selects(some, ids)
    ensures Selects(some, ids + [last])
  {
    forall i, j | 0 <= i < j < |some| { BeforeStays(ids, last, some[i], some[j]); }
  }

  lemma SelectsGrows(some: seq<string>, ids: seq<string>, last: string)
    requires Selects(some, ids)
    ensures Selects(some + [last], ids + [last])
  {
    var more := some + [last];
    forall i, j | 0 <= i < j < |more|
      ensures Before(ids + [last], more[i], more[j])
    {
      if j < |some| {
        BeforeStays(ids, last, some[i], some[j]);
      } else {
        LastIsAfter(ids, last, some[i]);
      }
    }
  }

  /** Adding the last id, or nothing, keeps the order. */
  lemma SelectsStep(some: seq<string>, ids: seq<string>, added: seq<string>, last: string)
    requires Selects(some, ids) && (added == [] || added == [last])
    ensures Selects(some + added, ids + [last])
  {
    if added == [] {
      SelectsStays(some, ids, last);
      assert some + added == some;
    } else {
      SelectsGrows(some, ids, last);
    }
  }

  lemma NodeIdsConcat(a: seq<FiledNode>, b: seq<FiledNode>)
    ensures NodeIds(a + b) == NodeIds(a) + NodeIds(b)
  {}

  function QueueIds(queue: seq<NodeRow>): seq<string> {
    seq(|queue|, i requires 0 <= i < |queue| => queue[i].nodeId)
  }

  lemma {:induction false} FiledInOrder(queue: seq<NodeRow>, results: seq<NodeResult>)
    requires |results| == |queue|
    ensures Selects(NodeIds(FiledOf(queue, results)), QueueIds(queue))
  {
    if queue != [] {
      var init, reported := queue[..|queue| - 1], results[..|results| - 1];
      FiledInOrder(init, reported);
      FiledStep(FiledOf(init, reported), QueueIds(init), queue[|queue| - 1], results[|results| - 1]);
      QueueIdsSnoc(queue);
    }
  }

  lemma QueueIdsSnoc(queue: seq<NodeRow>)
    requires queue != []
    ensures QueueIds(queue) == QueueIds(queue[..|queue| - 1]) + [queue[|queue| - 1].nodeId]
  {}

  lemma FiledStep(earlier: seq<FiledNode>, ids: seq<string>, n: NodeRow, r: NodeResult)
    requires Selects(NodeIds(earlier), ids)
    ensures Selects(NodeIds(earlier + FiledBy(r, n)), ids + [n.nodeId])
  {
    NodeIdsConcat(earlier, FiledBy(r, n));
    FiledIds(r, n);
    SelectsStep(NodeIds(earlier), ids, NodeIds(FiledBy(r, n)), n.nodeId);
  }

  lemma FiledIds(r: NodeResult, n: NodeRow)
    ensures NodeIds(FiledBy(r, n)) == [] || NodeIds(FiledBy(r, n)) == [n.nodeId]
  {}

  lemma {:induction false} ChildrenInOrder(thisRun: seq<FiledNode>, p: string)
    ensures Selects(NodeIds(ChildrenFiled(thisRun, p)), NodeIds(thisRun))
  {
    if thisRun != [] {
      var init, last := thisRun[..|thisRun| - 1], thisRun[|thisRun| - 1];
      var added := if last.row.parentId == Some(p) then [last] else [];
      ChildrenInOrder(init, p);
      NodeIdsConcat(ChildrenFiled(init, p), added);
      SelectsStep(NodeIds(ChildrenFiled(init, p)), NodeIds(init), NodeIds(added), last.nodeId);
      assert NodeIds(thisRun) == NodeIds(init) + [last.nodeId];
    }
  }

  function UpdatedIds(updates: seq<EpicUpdate>): seq<string> {
    seq(|updates|, i requires 0 <= i < |updates| => updates[i].nodeId)
  }

  lemma {:induction false} UpdatesInOrder(
    t: Oracle, render: Render, thisRun: seq<FiledNode>, log: Log, parents: seq<FiledNode>)
    ensures Selects(UpdatedIds(UpdateEpics(t, render, thisRun, log, parents).updates), NodeIds(parents))
  {
    if parents != [] {
      var init, last := parents[..|parents| - 1], parents[|parents| - 1];
      var acc := UpdateEpics(t, render, thisRun, log, init);
      UpdatesInOrder(t, render, thisRun, log, init);
      var added := UpdateAdded(t, render, thisRun, acc, last);
      assert UpdatedIds(acc.updates + added) == UpdatedIds(acc.updates) + UpdatedIds(added);
      AddedIds(render, thisRun, last, added);
      SelectsStep(UpdatedIds(acc.updates), NodeIds(init), UpdatedIds(added), last.nodeId);
      assert NodeIds(parents) == NodeIds(init) + [last.nodeId];
    }
  }

  lemma AddedIds(render: Render, thisRun: seq<FiledNode>, q: FiledNode, added: seq<EpicUpdate>)
    requires |added| <= 1 && forall u :: u in added ==> UpdateFor(render, thisRun, q, u)
    ensures UpdatedIds(added) == [] || UpdatedIds(added) == [q.nodeId]
  {
    if added != [] { assert UpdateFor(render, thisRun, q, added[0]); }
  }

  /**
   * In any emit the nodes filed keep the order of the queue, parents are edited in that order, and every task list
   * names its children in that order.
   */
  lemma EmitKeepsOrder(t: Oracle, mode: Mode, render: Render, before: Rows, log: Log, queue: seq<NodeRow>)
    requires IsQueue(before, queue)
    ensures
      var e := EmitAll(t, mode, render, StartOf(before, log), queue);
      var updates := UpdateEpics(t, render, e.thisRun, e.log, e.thisRun).updates;
      && Selects(NodeIds(e.thisRun), QueueIds(queue)) && Selects(UpdatedIds(updates), NodeIds(e.thisRun))
      && forall u :: u in updates ==> Selects(u.childIds, NodeIds(e.thisRun))
  {
    var e := EmitAll(t, mode, render, StartOf(before, log), queue);
    var updates := UpdateEpics(t, render, e.thisRun, e.log, e.thisRun).updates;
    EmitIsTruthful(t, mode, render, before, log, queue);
    FiledInOrder(queue, e.results);
    UpdatesInOrder(t, render, e.thisRun, e.log, e.thisRun);
    FiledAreStored(t, mode, render, before, log, queue);
    EpicsAreUpdated(t, render, e.thisRun, e.log, e.thisRun);
    forall u | u in updates
      ensures Selects(u.childIds, NodeIds(e.thisRun))
    {
      assert ComesFrom(render, e.thisRun, e.thisRun, u);
      var q :| q in e.thisRun && UpdateFor(render, e.thisRun, q, u);
      ChildrenInOrder(e.thisRun, q.nodeId);
    }
  }
}
