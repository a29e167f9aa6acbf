/** Laws of one emit over a whole queue: links, accounting, dry runs. */
module EmissionLaws {
  import opened Prelude
  import opened Text
  import opened LedgerModel
  import opened ParentsFirst
  import opened Tracker
  import opened Emission

  /** Distinct planned nodes with their stored rows. */
  predicate IsQueue(rows: Rows, queue: seq<NodeRow>) {
    && DistinctNodes(queue)
    && forall i :: 0 <= i < |queue| ==>
         queue[i].nodeId in rows && rows[queue[i].nodeId] == queue[i].row && queue[i].row.state == Planned
  }

  /** The report row of a queued node is about that node and agrees with the ledger afterwards. */
  predicate ResultFits(render: Render, n: NodeRow, r: NodeResult, rows: Rows) {
    && r.nodeId == n.nodeId && n.nodeId in rows
    && r.sent == IssueFor(render, n, r.parentNumber)
    && OutcomeMatches(r.outcome, n.row, rows[n.nodeId])
  }

  /** The nodes filed this run, in filing order. */
  function FiledOf(queue: seq<NodeRow>, results: seq<NodeResult>): seq<FiledNode>
    requires |queue| == |results|
  {
    if queue == [] then []
    else FiledOf(queue[..|queue| - 1], results[..|results| - 1]) + FiledBy(results[|results| - 1], queue[|queue| - 1])
  }

  ghost predicate EmitOk(render: Render, before: Rows, queue: seq<NodeRow>, e: Emission) {
    && e.filed == SeedFiled(e.rows)
    && e.rows.Keys == before.Keys
    && (forall n :: n in before && n !in IdSet(queue) ==> e.rows[n] == before[n])
    && |e.results| == |queue|
    && (forall i :: 0 <= i < |queue| ==> ResultFits(render, queue[i], e.results[i], e.rows))
    && e.thisRun == FiledOf(queue, e.results)
  }

  lemma QueueInit(rows: Rows, init: seq<NodeRow>, last: NodeRow)
    requires IsQueue(rows, init + [last])
    ensures IsQueue(rows, init) && last.nodeId !in IdSet(init)
    ensures last.nodeId in rows && rows[last.nodeId] == last.row && last.row.state == Planned
  {
    var queue := init + [last];
    assert queue[|init|] == last;
    assert forall i :: 0 <= i < |init| ==> queue[i] == init[i];
  }

  lemma EmitOkStep(render: Render, before: Rows, init: seq<NodeRow>, last: NodeRow, e: Emission, after: Emission)
    requires IsQueue(before, init + [last]) && EmitOk(render, before, init, e) && StepOk(render, e, last, after)
    ensures EmitOk(render, before, init + [last], after)
  {
    QueueInit(before, init, last);
    IdSetSnoc(init, last);
    var queue := init + [last];
    assert queue[..|queue| - 1] == init && after.results[..|queue| - 1] == e.results;
    forall i | 0 <= i < |queue|
      ensures ResultFits(render, queue[i], after.results[i], after.rows)
    {
      if i < |init| {
        assert ResultFits(render, init[i], e.results[i], e.rows);
        assert init[i].nodeId in IdSet(init);
      }
    }
  }

  /** Whatever the tracker answers, an emit leaves every queued node either untouched or recorded, as reported. */
  lemma {:induction false} EmitIsTruthful(t: Oracle, mode: Mode, render: Render, before: Rows, log: Log,
                                          queue: seq<NodeRow>)
    requires IsQueue(before, queue)
    ensures EmitOk(render, before, queue, EmitAll(t, mode, render, StartOf(before, log), queue))
  {
    if queue != [] {
      var init, last := queue[..|queue| - 1], queue[|queue| - 1];
      assert queue == init + [last];
      QueueInit(before, init, last);
      EmitIsTruthful(t, mode, render, before, log, init);
      var e := EmitAll(t, mode, render, StartOf(before, log), init);
      OneStep(t, mode, render, e, last);
      EmitOkStep(render, before, init, last, e, EmitOne(t, mode, render, e, last));
    }
  }

  // ----- link correctness -----

  lemma ParentNumberFrame(rows: Rows, id: string, row: Row, n: NodeRow)
    requires id in rows && n.row.parentId != Some(id)
    ensures ParentNumber(SeedFiled(rows[id := row]), n) == ParentNumber(SeedFiled(rows), n)
  {}

  /** In a parents-first queue no node's parent comes at or after it. */
  lemma ParentIsNotLater(queue: seq<NodeRow>, i: nat, k: nat)
    requires AlreadyOrdered(queue) && i <= k < |queue|
    ensures queue[i].row.parentId != Some(queue[k].nodeId)
  {
    assert ParentBefore(queue, queue, i) && queue[k].nodeId in IdSet(queue);
    if ParentInSet(queue, queue[i]) {
      var j :| 0 <= j < i && Some(queue[j].nodeId) == queue[i].row.parentId;
      assert queue[j].nodeId != queue[k].nodeId;
    }
  }

  /** The node was linked with the number the ledger now holds for its own parent. */
  predicate LinkAgrees(rows: Rows, n: NodeRow, r: NodeResult) {
    r.parentNumber == ParentNumber(SeedFiled(rows), n)
  }

  /** So were the first `k` nodes. */
  ghost predicate LinksAgree(rows: Rows, queue: seq<NodeRow>, results: seq<NodeResult>, k: nat)
    requires k <= |queue| && k <= |results|
  {
    forall i :: 0 <= i < k ==> LinkAgrees(rows, queue[i], results[i])
  }

  lemma LinkStays(queue: seq<NodeRow>, i: nat, k: nat, rows: Rows, row: Row, r: NodeResult)
    requires AlreadyOrdered(queue) && i <= k < |queue| && queue[k].nodeId in rows && LinkAgrees(rows, queue[i], r)
    ensures LinkAgrees(rows[queue[k].nodeId := row], queue[i], r)
  {
    ParentIsNotLater(queue, i, k);
    ParentNumberFrame(rows, queue[k].nodeId, row, queue[i]);
  }

  lemma StepLinks(render: Render, e: Emission, n: NodeRow, after: Emission)
    requires StepOk(render, e, n, after)
    ensures n.nodeId in e.rows && n.nodeId in after.rows && after.rows == e.rows[n.nodeId := after.rows[n.nodeId]]
    ensures |after.results| == |e.results| + 1 && after.results[..|e.results|] == e.results
    ensures LinkAgrees(e.rows, n, after.results[|e.results|])
  {}

  lemma LinksStep(render: Render, queue: seq<NodeRow>, k: nat, e: Emission, after: Emission)
    requires AlreadyOrdered(queue) && k < |queue| && |e.results| == k
    requires LinksAgree(e.rows, queue, e.results, k) && StepOk(render, e, queue[k], after)
    ensures |after.results| == k + 1 && LinksAgree(after.rows, queue, after.results, k + 1)
  {
    StepLinks(render, e, queue[k], after);
    forall i | 0 <= i <= k
      ensures LinkAgrees(after.rows, queue[i], after.results[i])
    {
      assert i < k ==> after.results[i] == e.results[i];
      LinkStays(queue, i, k, e.rows, after.rows[queue[k].nodeId], after.results[i]);
    }
  }

  lemma {:induction false} LinksUpTo(t: Oracle, mode: Mode, render: Render, before: Rows, log: Log, queue: seq<NodeRow>,
                                     k: nat)
    requires IsQueue(before, queue) && AlreadyOrdered(queue) && k <= |queue|
    ensures
      var e := EmitAll(t, mode, render, StartOf(before, log), queue[..k]);
      |e.results| == k && LinksAgree(e.rows, queue, e.results, k)
  {
    if k > 0 {
      var init, last := queue[..k - 1], queue[k - 1];
      assert queue[..k] == init + [last];
      assert IsQueue(before, init + [last]);
      QueueInit(before, init, last);
      LinksUpTo(t, mode, render, before, log, queue, k - 1);
      EmitIsTruthful(t, mode, render, before, log, init);
      var e := EmitAll(t, mode, render, StartOf(before, log), init);
      OneStep(t, mode, render, e, last);
      LinksStep(render, queue, k - 1, e, EmitOne(t, mode, render, e, last));
      assert (init + [last])[..|init + [last]| - 1] == init;
    }
  }

  /** What the finished ledger says about a node's parent: its number, when it is recorded with a resolvable one. */
  function LedgerParentNumber(rows: Rows, n: NodeRow): Option<string> {
    if n.row.parentId.Some? && n.row.parentId.value in rows then NumberOf(rows[n.row.parentId.value]) else None
  }

  /** A parent has a number exactly when its row has left planned with a ref that, trimmed, spells that number. */
  lemma ParentNumberIsExact(rows: Rows, n: NodeRow, number: string)
    ensures LedgerParentNumber(rows, n) == Some(number) <==>
      && n.row.parentId.Some? && n.row.parentId.value in rows
      && var parent := rows[n.row.parentId.value];
         parent.state != Planned && parent.issueRef.Some? && SpellsNumber(Trim(parent.issueRef.value), number)
  {
    if n.row.parentId.Some? && n.row.parentId.value in rows {
      var ref := rows[n.row.parentId.value].issueRef;
      if ref.Some? { NumberResolves(ref.value, number); }
    }
  }

  /**
   * The issue of a node, in words: its goal as the title, its labels, the link if any, the goal, a rule, the payload.
   */
  predicate IssueReads(render: Render, n: NodeRow, parent: Option<string>, sent: CreateInput) {
    && sent.title == n.row.goal && sent.labels == n.row.labels
    && sent.body ==
         (match parent case None => "" case Some(number) => "Parent: #" + number + "\n\n")
         + (n.row.task.goal + "\n\n---\n" + render(n.row.task))
  }

  lemma IssueInWords(render: Render, n: NodeRow, parent: Option<string>)
    ensures IssueReads(render, n, parent, IssueFor(render, n, parent))
  {
    assert "" + IssueBody(render, n.row.task) == IssueBody(render, n.row.task);
  }

  /**
   * Link correctness over any tracker behaviour: the issue handed over for each node carries `Parent: #N` exactly when
   * the ledger holds a resolvable ref for that node's own parent, from this run or an earlier one, and N is its number.
   */
  lemma LinksAreCorrect(t: Oracle, mode: Mode, render: Render, before: Rows, log: Log, queue: seq<NodeRow>, i: nat)
    requires IsQueue(before, queue) && AlreadyOrdered(queue) && i < |queue|
    ensures
      var e := EmitAll(t, mode, render, StartOf(before, log), queue);
      && |e.results| == |queue| && e.results[i].nodeId == queue[i].nodeId
      && e.results[i].parentNumber == LedgerParentNumber(e.rows, queue[i])
      && e.results[i].sent == IssueFor(render, queue[i], LedgerParentNumber(e.rows, queue[i]))
      && IssueReads(render, queue[i], LedgerParentNumber(e.rows, queue[i]), e.results[i].sent)
  {
    EmitIsTruthful(t, mode, render, before, log, queue);
    LinksUpTo(t, mode, render, before, log, queue, |queue|);
    assert queue[..|queue|] == queue;
    var e := EmitAll(t, mode, render, StartOf(before, log), queue);
    assert ResultFits(render, queue[i], e.results[i], e.rows);
    assert e.results[i].parentNumber == LedgerParentNumber(e.rows, queue[i]);
    IssueInWords(render, queue[i], LedgerParentNumber(e.rows, queue[i]));
  }

  // ----- accounting -----

  function AnswerOf(outcome: NodeOutcome): CreateAnswer {
    match outcome
    case FiledUnrecorded(ref) => Created(ref)
    case FiledRecorded(ref) => Created(ref)
    case _ => CreateFailed
  }

  /** The tracker call an execute-mode report row stands for, if its issue was well formed. */
  function CallOf(r: NodeResult): Log {
    if ValidCreate(r.sent) then [CreateCall(r.sent, AnswerOf(r.outcome))] else []
  }

  function Calls(results: seq<NodeResult>): Log {
    if results == [] then [] else Calls(results[..|results| - 1]) + CallOf(results[|results| - 1])
  }

  lemma CallsSnoc(init: seq<NodeResult>, last: NodeResult)
    ensures Calls(init + [last]) == Calls(init) + CallOf(last)
  {}

  predicate ExecuteOutcome(r: NodeResult) {
    !r.outcome.Proposed? && (!r.outcome.NotFiled? ==> ValidCreate(r.sent))
  }

  lemma ExecuteStep(t: Oracle, render: Render, e: Emission, n: NodeRow)
    ensures
      var after := EmitOne(t, Execute, render, e, n);
      && |after.results| == |e.results| + 1
      && var r := after.results[|e.results|];
         after.results == e.results + [r] && ExecuteOutcome(r) && after.log == e.log + CallOf(r)
  {
    var parentNumber := ParentNumber(e.filed, n);
    var sent := IssueFor(render, n, parentNumber);
    var (answer, log) := CreateIssue(t, Execute, e.log, sent);
    if answer.Created? {
      FilingReports(e.(log := log), n, parentNumber, sent, answer.ref);
    }
  }

  /** In execute mode the tracker saw exactly the calls the report accounts for, in order. */
  lemma {:induction false} ExecuteCalls(t: Oracle, render: Render, before: Rows, log: Log, queue: seq<NodeRow>)
    ensures
      var e := EmitAll(t, Execute, render, StartOf(before, log), queue);
      && |e.results| == |queue| && e.log == log + Calls(e.results)
      && forall i :: 0 <= i < |e.results| ==> ExecuteOutcome(e.results[i])
  {
    if queue != [] {
      var init, last := queue[..|queue| - 1], queue[|queue| - 1];
      ExecuteCalls(t, render, before, log, init);
      var e := EmitAll(t, Execute, render, StartOf(before, log), init);
      ExecuteStep(t, render, e, last);
      var after := EmitOne(t, Execute, render, e, last);
      CallsSnoc(e.results, after.results[|e.results|]);
    }
  }

  /** A dry run proposes and changes nothing: same rows, no call. */
  lemma {:induction false} DryRunIsPure(t: Oracle, render: Render, before: Rows, log: Log, queue: seq<NodeRow>)
    ensures
      var e := EmitAll(t, DryRun, render, StartOf(before, log), queue);
      && e.rows == before && e.log == log && |e.results| == |queue| && e.thisRun == []
      && forall i :: 0 <= i < |queue| ==>
           e.results[i].outcome == if ValidCreate(e.results[i].sent) then Proposed else NotFiled
  {
    if queue != [] {
      DryRunIsPure(t, render, before, log, queue[..|queue| - 1]);
    }
  }

  /** Successful createIssue calls in a log. */
  function CreatedCalls(log: Log): nat {
    if log == [] then 0
    else
      CreatedCalls(log[..|log| - 1]) +
      (if log[|log| - 1].CreateCall? && log[|log| - 1].createAnswer.Created? then 1 else 0)
  }

  predicate IsRecorded(o: NodeOutcome) { o.FiledRecorded? }

  predicate IsUnrecorded(o: NodeOutcome) { o.FiledUnrecorded? }

  function IdsWhere(results: seq<NodeResult>, p: NodeOutcome -> bool): set<string> {
    set i | 0 <= i < |results| && p(results[i].outcome) :: results[i].nodeId
  }

  function Recorded(results: seq<NodeResult>): set<string> { IdsWhere(results, IsRecorded) }

  function Unrecorded(results: seq<NodeResult>): set<string> { IdsWhere(results, IsUnrecorded) }

  predicate DistinctResults(results: seq<NodeResult>) {
    forall i, j :: 0 <= i < j < |results| ==> results[i].nodeId != results[j].nodeId
  }

  lemma CreatedCallsSnoc(log: Log, x: Exchange)
    ensures CreatedCalls(log + [x]) == CreatedCalls(log) + (if x.CreateCall? && x.createAnswer.Created? then 1 else 0)
  {}

  lemma IdsWhereSize(init: seq<NodeResult>, last: NodeResult, p: NodeOutcome -> bool)
    requires DistinctResults(init + [last])
    ensures DistinctResults(init)
    ensures |IdsWhere(init + [last], p)| == |IdsWhere(init, p)| + (if p(last.outcome) then 1 else 0)
  {
    var r := init + [last];
    assert r[|init|] == last && forall i :: 0 <= i < |init| ==> r[i] == init[i];
    assert last.nodeId !in IdsWhere(init, p);
    assert IdsWhere(r, p) == if p(last.outcome) then IdsWhere(init, p) + {last.nodeId} else IdsWhere(init, p);
  }

  lemma CreatedCallsOf(log: Log, r: NodeResult)
    requires ExecuteOutcome(r)
    ensures CreatedCalls(log + CallOf(r)) == CreatedCalls(log) +
      (if r.outcome.FiledRecorded? || r.outcome.FiledUnrecorded? then 1 else 0)
  {
    CreatedCallsSnoc(log, CreateCall(r.sent, AnswerOf(r.outcome)));
    assert log + [] == log;
  }

  /** Successful calls = nodes reported recorded + nodes reported filed but not recorded. */
  lemma {:induction false} CallsAreAccounted(results: seq<NodeResult>)
    requires DistinctResults(results) && forall i :: 0 <= i < |results| ==> ExecuteOutcome(results[i])
    ensures CreatedCalls(Calls(results)) == |Recorded(results)| + |Unrecorded(results)|
  {
    if results != [] {
      var init, last := results[..|results| - 1], results[|results| - 1];
      assert results == init + [last];
      IdsWhereSize(init, last, IsRecorded);
      IdsWhereSize(init, last, IsUnrecorded);
      CallsAreAccounted(init);
      assert ExecuteOutcome(last);
      CreatedCallsOf(Calls(init), last);
      CallsSnoc(init, last);
    }
  }

  function NewlyEmitted(before: Rows, after: Rows): set<string> {
    set n | n in before && n in after && before[n].state == Planned && after[n].state == Emitted
  }

  lemma StateAfter(render: Render, before: Rows, queue: seq<NodeRow>, e: Emission, i: nat)
    requires IsQueue(before, queue) && EmitOk(render, before, queue, e) && i < |queue|
    ensures e.results[i].nodeId == queue[i].nodeId && queue[i].nodeId in e.rows
    ensures e.rows[queue[i].nodeId].state == if e.results[i].outcome.FiledRecorded? then Emitted else Planned
  {
    assert ResultFits(render, queue[i], e.results[i], e.rows);
  }

  /** The report rows are about the queue, in order, and say which nodes are emitted now; no other row moved. */
  predicate StatesReported(before: Rows, queue: seq<NodeRow>, results: seq<NodeResult>, after: Rows) {
    && |results| == |queue|
    && (forall i :: 0 <= i < |queue| ==>
         && results[i].nodeId == queue[i].nodeId && queue[i].nodeId in before && queue[i].nodeId in after
         && before[queue[i].nodeId].state == Planned
         && (after[queue[i].nodeId].state == Emitted <==> IsRecorded(results[i].outcome)))
    && forall n :: n in before && n !in IdSet(queue) && n in after ==> after[n] == before[n]
  }

  lemma NewlyFromReport(before: Rows, queue: seq<NodeRow>, results: seq<NodeResult>, after: Rows)
    requires StatesReported(before, queue, results, after)
    ensures NewlyEmitted(before, after) == Recorded(results)
  {}

  lemma NewlyEmittedAreRecorded(render: Render, before: Rows, queue: seq<NodeRow>, e: Emission)
    requires IsQueue(before, queue) && EmitOk(render, before, queue, e)
    ensures NewlyEmitted(before, e.rows) == Recorded(e.results) && DistinctResults(e.results)
  {
    forall i | 0 <= i < |queue| { StateAfter(render, before, queue, e, i); }
    NewlyFromReport(before, queue, e.results, e.rows);
  }

  /**
   * Emission accounting for any tracker: the successful createIssue calls of an emit are as many as the nodes that
   * became emitted plus the nodes reported as filed but not recorded.
   */
  lemma EmitAccounting(t: Oracle, render: Render, before: Rows, log: Log, queue: seq<NodeRow>)
    requires IsQueue(before, queue)
    ensures
      var e := EmitAll(t, Execute, render, StartOf(before, log), queue);
      && log <= e.log
      && CreatedCalls(e.log[|log|..]) == |NewlyEmitted(before, e.rows)| + |Unrecorded(e.results)|
  {
    var e := EmitAll(t, Execute, render, StartOf(before, log), queue);
    ExecuteCalls(t, render, before, log, queue);
    EmitIsTruthful(t, Execute, render, before, log, queue);
    NewlyEmittedAreRecorded(render, before, queue, e);
    CallsAreAccounted(e.results);
    assert e.log[|log|..] == Calls(e.results);
  }
}
