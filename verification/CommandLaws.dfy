/** What emit and reconcile keep and reach on a well-formed program. */
module CommandLaws {
  import opened Prelude
  import opened LedgerModel
  import opened ParentsFirst
  import opened Listing
  import opened Tracker
  import opened Emission
  import opened EmissionLaws
  import opened EmitCommand

  // ----- how rows may change -----

  /** One row over time: only rung and ref move, forward, and the row is the same while the rung is. */
  predicate RowEvolves(before: Row, after: Row) {
    && after == before.(state := after.state, issueRef := after.issueRef)
    && (after.state == before.state ==> after == before)
    && (before.state == Emitted ==> after.state != Planned)
    && (before.state == Done ==> after.state == Done)
  }

  /** No row disappears, and each evolves. */
  predicate RowsEvolve(before: Rows, after: Rows) {
    forall n :: n in before ==> n in after && RowEvolves(before[n], after[n])
  }

  /** One row over one command: untouched, or one rung up with whatever ref goes with it. */
  predicate RowSteps(before: Row, after: Row) {
    || after == before
    || (NextRung(before.state) == Some(after.state)
        && after == before.(state := after.state, issueRef := after.issueRef))
  }

  /** No row disappears, each takes one step at most, and a new one starts planned. */
  ghost predicate RowsStep(before: Rows, after: Rows) {
    && (forall n :: n in before ==> n in after && RowSteps(before[n], after[n]))
    && forall n :: n in after && n !in before ==> after[n].state == Planned
  }

  lemma StepsEvolve(before: Rows, after: Rows)
    requires RowsStep(before, after)
    ensures RowsEvolve(before, after)
  {
    forall n | n in before
      ensures n in after && RowEvolves(before[n], after[n])
    {
      assert RowSteps(before[n], after[n]);
    }
  }

  // ----- emit -----

  lemma PlannedIsAQueue(pid: string, rows: Rows)
    requires ProgramOk(pid, rows)
    ensures IsQueue(rows, PlannedNodes(rows)) && AlreadyOrdered(PlannedNodes(rows))
    ensures OrderOf(PlannedNodes(rows)) == PlannedNodes(rows)
    ensures forall n :: n in rows && rows[n].state == Planned <==> n in IdSet(PlannedNodes(rows))
  {
    SelectedRows(rows, Planned);
    ListingIsParentsFirst(pid, rows, PlannedNodes(rows));
    OrderedIsUnchanged(PlannedNodes(rows));
  }

  /** An emit may create and edit issues: asked to execute, by an overlay at the enforce tier. */
  predicate MayWrite(cfg: Config, flag: bool) {
    flag && cfg.tracker == Some(EnforceWrites)
  }

  function ModeFor(cfg: Config, flag: bool): Mode {
    if MayWrite(cfg, flag) then Execute else DryRun
  }

  /**
   * With something planned, a successful emit files exactly the planned listing, in listing order, and executes exactly
   * when it was asked to by an overlay at the enforce tier.
   */
  lemma EmitFilesListing(t: Oracle, cfg: Config, render: Render, w: World, pid: string, flag: bool,
                         confirm: Option<string>)
    requires EmitOp(t, cfg, render, w, pid, flag, confirm).Ok? && ProgramOk(pid, w.ledger[pid].rows)
    requires PlannedNodes(w.ledger[pid].rows) != []
    ensures EmitOp(t, cfg, render, w, pid, flag, confirm).value ==
      FileNodes(t, ModeFor(cfg, flag), render, w, pid, PlannedNodes(w.ledger[pid].rows))
  {
    PlannedIsAQueue(pid, w.ledger[pid].rows);
    EmitFilesOrder(t, cfg, render, w, pid, flag, confirm, PlannedNodes(w.ledger[pid].rows));
  }

  lemma EmitFilesOrder(t: Oracle, cfg: Config, render: Render, w: World, pid: string, flag: bool,
                       confirm: Option<string>, planned: seq<NodeRow>)
    requires EmitOp(t, cfg, render, w, pid, flag, confirm).Ok?
    requires planned == PlannedNodes(w.ledger[pid].rows) != []
    ensures EmitOp(t, cfg, render, w, pid, flag, confirm).value ==
      FileNodes(t, ModeFor(cfg, flag), render, w, pid, OrderOf(planned))
  {}

  lemma OutcomeKeepsRow(outcome: NodeOutcome, before: Row, after: Row)
    requires OutcomeMatches(outcome, before, after) && RowOk(before)
    ensures RowOk(after) && RowSteps(before, after)
  {}

  lemma EmitKeepsRow(render: Render, before: Rows, queue: seq<NodeRow>, e: Emission, n: string)
    requires IsQueue(before, queue) && EmitOk(render, before, queue, e) && n in before && RowOk(before[n])
    ensures n in e.rows && RowOk(e.rows[n]) && RowSteps(before[n], e.rows[n])
  {
    if n in IdSet(queue) {
      var i :| 0 <= i < |queue| && queue[i].nodeId == n;
      assert ResultFits(render, queue[i], e.results[i], e.rows);
      OutcomeKeepsRow(e.results[i].outcome, before[n], e.rows[n]);
    }
  }

  lemma EvolvedProgramIsOk(pid: string, before: Rows, after: Rows)
    requires ProgramOk(pid, before) && after.Keys == before.Keys && RowsEvolve(before, after)
    requires forall n :: n in after ==> RowOk(after[n])
    ensures Skeleton(after) == Skeleton(before) && ProgramOk(pid, after)
  {
    SkeletonIsKept(before, after);
  }

  lemma SkeletonIsKept(before: Rows, after: Rows)
    requires after.Keys == before.Keys && RowsEvolve(before, after)
    ensures Skeleton(after) == Skeleton(before)
  {
    forall n | n in before
      ensures after[n].parentId == before[n].parentId && after[n].task == before[n].task
    {
      assert RowEvolves(before[n], after[n]);
    }
  }

  /** Any emit of a well-formed program keeps it well formed, whatever the tracker answers. */
  lemma EmitKeepsProgram(t: Oracle, mode: Mode, render: Render, pid: string, before: Rows, log: Log)
    requires ProgramOk(pid, before)
    ensures
      var e := EmitAll(t, mode, render, StartOf(before, log), PlannedNodes(before));
      ProgramOk(pid, e.rows) && e.rows.Keys == before.Keys && RowsStep(before, e.rows)
  {
    var queue := PlannedNodes(before);
    var e := EmitAll(t, mode, render, StartOf(before, log), queue);
    PlannedIsAQueue(pid, before);
    EmitIsTruthful(t, mode, render, before, log, queue);
    forall n | n in before { EmitKeepsRow(render, before, queue, e, n); }
    StepsEvolve(before, e.rows);
    EvolvedProgramIsOk(pid, before, e.rows);
  }

  predicate NoneFailed(results: seq<NodeResult>) {
    forall r :: r in results ==> !NodeFailed(r)
  }

  lemma AllRecorded(t: Oracle, render: Render, before: Rows, log: Log, queue: seq<NodeRow>, i: nat)
    requires IsQueue(before, queue) && i < |queue|
    requires NoneFailed(EmitAll(t, Execute, render, StartOf(before, log), queue).results)
    ensures
      var e := EmitAll(t, Execute, render, StartOf(before, log), queue);
      queue[i].nodeId in e.rows && e.rows[queue[i].nodeId].state == Emitted
  {
    var e := EmitAll(t, Execute, render, StartOf(before, log), queue);
    EmitIsTruthful(t, Execute, render, before, log, queue);
    ExecuteCalls(t, render, before, log, queue);
    StateAfter(render, before, queue, e, i);
    assert e.results[i] in e.results && ExecuteOutcome(e.results[i]);
  }

  lemma NotPlannedAfter(t: Oracle, render: Render, pid: string, before: Rows, log: Log, n: string)
    requires ProgramOk(pid, before) && n in before
    requires NoneFailed(EmitAll(t, Execute, render, StartOf(before, log), PlannedNodes(before)).results)
    ensures
      var after := EmitAll(t, Execute, render, StartOf(before, log), PlannedNodes(before)).rows;
      n in after && after[n].state != Planned
  {
    var queue := PlannedNodes(before);
    PlannedIsAQueue(pid, before);
    if n in IdSet(queue) {
      var i :| 0 <= i < |queue| && queue[i].nodeId == n;
      AllRecorded(t, render, before, log, queue, i);
    } else {
      EmitIsTruthful(t, Execute, render, before, log, queue);
    }
  }

  lemma NoPlannedRows(rows: Rows)
    requires forall n :: n in rows ==> rows[n].state != Planned
    ensures PlannedNodes(rows) == []
  {
    SelectedRows(rows, Planned);
    assert IdSet(PlannedNodes(rows)) <= rows.Keys;
    assert IdSet(PlannedNodes(rows)) == {};
    NoIdsNoNodes(PlannedNodes(rows));
  }

  lemma NoFailureMeansRecorded(t: Oracle, render: Render, pid: string, before: Rows, log: Log)
    requires ProgramOk(pid, before)
    requires NoneFailed(EmitAll(t, Execute, render, StartOf(before, log), PlannedNodes(before)).results)
    ensures PlannedNodes(EmitAll(t, Execute, render, StartOf(before, log), PlannedNodes(before)).rows) == []
  {
    EmitKeepsProgram(t, Execute, render, pid, before, log);
    forall n | n in before { NotPlannedAfter(t, render, pid, before, log, n); }
    NoPlannedRows(EmitAll(t, Execute, render, StartOf(before, log), PlannedNodes(before)).rows);
  }

  /** An execute-mode emit that exits 0 leaves nothing planned, so the next emit files nothing and changes nothing. */
  lemma ExitZeroMeansDone(t: Oracle, cfg: Config, render: Render, w: World, pid: string, confirm: Option<string>,
                          flag: bool, confirm': Option<string>)
    requires LedgerOk(w.ledger) && cfg.tracker == Some(EnforceWrites)
    requires EmitOp(t, cfg, render, w, pid, true, confirm).Ok?
      && EmitOp(t, cfg, render, w, pid, true, confirm).value.1.exit == 0
    ensures
      var after := EmitOp(t, cfg, render, w, pid, true, confirm).value.0;
      && pid in after.ledger && PlannedNodes(after.ledger[pid].rows) == []
      && EmitOp(t, cfg, render, after, pid, flag, confirm') == Ok((after, EmitReport(0, DryRun, [], [])))
  {
    var rows := w.ledger[pid].rows;
    if PlannedNodes(rows) != [] {
      EmitFilesListing(t, cfg, render, w, pid, true, confirm);
      FiledWithoutFailure(t, render, w, pid);
    }
    NothingToEmit(t, cfg, render, EmitOp(t, cfg, render, w, pid, true, confirm).value.0, pid, flag, confirm');
  }

  lemma FiledWithoutFailure(t: Oracle, render: Render, w: World, pid: string)
    requires pid in w.ledger && ProgramOk(pid, w.ledger[pid].rows)
    requires FileNodes(t, Execute, render, w, pid, PlannedNodes(w.ledger[pid].rows)).1.exit == 0
    ensures
      var after := FileNodes(t, Execute, render, w, pid, PlannedNodes(w.ledger[pid].rows)).0;
      pid in after.ledger && PlannedNodes(after.ledger[pid].rows) == []
  {
    NoFailureMeansRecorded(t, render, pid, w.ledger[pid].rows, w.log);
  }

  lemma NothingToEmit(t: Oracle, cfg: Config, render: Render, w: World, pid: string, flag: bool,
                      confirm: Option<string>)
    requires |pid| <= ID_MAX && pid in w.ledger && PlannedNodes(w.ledger[pid].rows) == []
    ensures EmitOp(t, cfg, render, w, pid, flag, confirm) == Ok((w, EmitReport(0, DryRun, [], [])))
  {}

  /** An emit executes exactly with the flag and at the enforce tier. */
  lemma ExecuteNeedsBoth(t: Oracle, cfg: Config, render: Render, w: World, pid: string, flag: bool,
                         confirm: Option<string>)
    requires EmitOp(t, cfg, render, w, pid, flag, confirm).Ok? && PlannedNodes(w.ledger[pid].rows) != []
    ensures EmitOp(t, cfg, render, w, pid, flag, confirm).value.1.mode == Execute <==>
      flag && cfg.tracker == Some(EnforceWrites)
  {}

  /** Without the flag, or below the enforce tier, an emit leaves ledger and tracker untouched. */
  lemma DryRunChangesNothing(t: Oracle, cfg: Config, render: Render, w: World, pid: string, flag: bool,
                             confirm: Option<string>)
    requires !(flag && cfg.tracker == Some(EnforceWrites))
    requires EmitOp(t, cfg, render, w, pid, flag, confirm).Ok?
    ensures EmitOp(t, cfg, render, w, pid, flag, confirm).value.0 == w
  {
    DryRunIsPure(t, render, w.ledger[pid].rows, w.log, OrderOf(PlannedNodes(w.ledger[pid].rows)));
    assert SetRows(w.ledger, pid, w.ledger[pid].rows) == w.ledger;
  }

  // ----- reconcile -----

  /** Distinct emitted nodes, as reconcile reads them. */
  predicate ReadsEmitted(rows: Rows, results: seq<ReadResult>) {
    && (forall i, j :: 0 <= i < j < |results| ==> results[i].nodeId != results[j].nodeId)
    && forall i :: 0 <= i < |results| ==> results[i].nodeId in rows && rows[results[i].nodeId].state == Emitted
  }

  function DoneIds(results: seq<ReadResult>): set<string> {
    set i | 0 <= i < |results| && results[i].answer == IssueClosed :: results[i].nodeId
  }

  /** Exactly the closed nodes moved to done, keeping their ref. */
  predicate Reconciled(before: Rows, results: seq<ReadResult>, after: Rows) {
    && after.Keys == before.Keys
    && forall n :: n in before ==> after[n] == if n in DoneIds(results) then before[n].(state := Done) else before[n]
  }

  lemma AdvanceToDone(row: Row)
    requires row.state == Emitted
    ensures AdvanceRow(row, Done, None) == Ok(row.(state := Done))
  {}

  lemma ReconciledSnoc(before: Rows, init: seq<ReadResult>, last: ReadResult, r: Rows)
    requires Reconciled(before, init, r) && last.nodeId in before && last.nodeId !in DoneIds(init)
    ensures Reconciled(before, init + [last],
      if last.answer == IssueClosed then r[last.nodeId := before[last.nodeId].(state := Done)] else r)
  {
    var results := init + [last];
    assert results[|init|] == last && forall i :: 0 <= i < |init| ==> results[i] == init[i];
    assert DoneIds(results) == if last.answer == IssueClosed then DoneIds(init) + {last.nodeId} else DoneIds(init);
  }

  /** Every advance reconcile issues is legal, so it never stops half-way. */
  lemma {:induction false} AdvancesAreLegal(before: Rows, results: seq<ReadResult>)
    requires ReadsEmitted(before, results)
    ensures ApplyAdvances(before, results).Some? && Reconciled(before, results, ApplyAdvances(before, results).value)
  {
    if results != [] {
      var init, last := results[..|results| - 1], results[|results| - 1];
      AdvancesAreLegal(before, init);
      assert results == init + [last];
      assert last.nodeId !in DoneIds(init);
      ReconciledSnoc(before, init, last, ApplyAdvances(before, init).value);
      AdvanceToDone(before[last.nodeId]);
    }
  }

  lemma {:induction false} RefsAreKept(rows: Rows, nodes: seq<NodeRow>)
    requires forall i :: 0 <= i < |nodes| ==> RungOk(nodes[i].row) && nodes[i].row.state == Emitted
    ensures WithRef(nodes) == nodes
  {
    if nodes != [] {
      RefsAreKept(rows, nodes[..|nodes| - 1]);
      assert nodes == nodes[..|nodes| - 1] + [nodes[|nodes| - 1]];
    }
  }

  lemma {:induction false} ReadsInOrder(t: Oracle, log: Log, nodes: seq<NodeRow>)
    ensures |ReadAll(t, log, nodes).results| == |nodes| && log <= ReadAll(t, log, nodes).log
    ensures forall i :: 0 <= i < |nodes| ==>
      ReadAll(t, log, nodes).results[i].nodeId == nodes[i].nodeId
        && ReadAll(t, log, nodes).results[i].issueRef == RefOf(nodes[i])
  {
    if nodes != [] { ReadsInOrder(t, log, nodes[..|nodes| - 1]); }
  }

  /** Reconcile reads exactly the emitted nodes of a well-formed program. */
  lemma EmittedAreRead(pid: string, rows: Rows)
    requires ProgramOk(pid, rows)
    ensures IsListing(rows, EmittedNodes(rows)) && DistinctNodes(EmittedNodes(rows))
    ensures forall n :: n in rows && rows[n].state == Emitted <==> n in IdSet(EmittedNodes(rows))
    ensures forall i :: 0 <= i < |EmittedNodes(rows)| ==> EmittedNodes(rows)[i].row.state == Emitted
  {
    var emitted := WithState(ListNodes(rows), Emitted);
    SelectedRows(rows, Emitted);
    forall i | 0 <= i < |emitted|
      ensures RungOk(emitted[i].row)
    {
      assert RowOk(rows[emitted[i].nodeId]);
    }
    RefsAreKept(rows, emitted);
    ListingIsDistinct(rows, emitted);
  }

  lemma ReconciledRowsAreOk(before: Rows, results: seq<ReadResult>, after: Rows)
    requires ReadsEmitted(before, results) && Reconciled(before, results, after)
    requires forall n :: n in before ==> RowOk(before[n])
    ensures RowsStep(before, after) && forall n :: n in after ==> RowOk(after[n])
  {}

  lemma ReadsAreEmitted(t: Oracle, pid: string, before: Rows, log: Log)
    requires ProgramOk(pid, before)
    ensures ReadsEmitted(before, ReadAll(t, log, EmittedNodes(before)).results)
  {
    EmittedAreRead(pid, before);
    ReadsInOrder(t, log, EmittedNodes(before));
  }

  /** An executed reconcile always completes, moves exactly the closed emitted nodes to done, and keeps the program. */
  lemma ReconcileKeepsProgram(t: Oracle, pid: string, before: Rows, log: Log)
    requires ProgramOk(pid, before)
    ensures
      var run := ReadAll(t, log, EmittedNodes(before));
      var after := ApplyAdvances(before, run.results);
      && after.Some? && Reconciled(before, run.results, after.value)
      && ProgramOk(pid, after.value) && after.value.Keys == before.Keys && RowsStep(before, after.value)
  {
    var run := ReadAll(t, log, EmittedNodes(before));
    ReadsAreEmitted(t, pid, before, log);
    AdvancesAreLegal(before, run.results);
    ReconciledRowsAreOk(before, run.results, ApplyAdvances(before, run.results).value);
    StepsEvolve(before, ApplyAdvances(before, run.results).value);
    EvolvedProgramIsOk(pid, before, ApplyAdvances(before, run.results).value);
  }

  /** The issues do not change between two readings: an answer depends on the ref alone. */
  ghost predicate IssuesUnchanged(t: Oracle, issues: string -> ReadAnswer) {
    forall log, ref :: t.read(log, ref) == issues(ref)
  }

  lemma {:induction false} ReadsFollowIssues(t: Oracle, issues: string -> ReadAnswer, log: Log, nodes: seq<NodeRow>)
    requires IssuesUnchanged(t, issues)
    ensures forall i :: 0 <= i < |nodes| ==>
      |ReadAll(t, log, nodes).results| == |nodes| && ReadAll(t, log, nodes).results[i].answer == issues(RefOf(nodes[i]))
  {
    ReadsInOrder(t, log, nodes);
    if nodes != [] {
      ReadsInOrder(t, log, nodes[..|nodes| - 1]);
      ReadsFollowIssues(t, issues, log, nodes[..|nodes| - 1]);
    }
  }

  /** After an executed reconcile, a second one against unchanged issues finds nothing closed and advances nothing. */
  lemma SecondReconcileIsIdle(t: Oracle, issues: string -> ReadAnswer, pid: string, before: Rows, log: Log, log': Log)
    requires ProgramOk(pid, before) && IssuesUnchanged(t, issues)
    ensures
      var after := ApplyAdvances(before, ReadAll(t, log, EmittedNodes(before)).results);
      after.Some? &&
      var second := ReadAll(t, log', EmittedNodes(after.value));
      DoneIds(second.results) == {} && ApplyAdvances(after.value, second.results) == after
  {
    ReconcileKeepsProgram(t, pid, before, log);
    var run := ReadAll(t, log, EmittedNodes(before));
    var after := ApplyAdvances(before, run.results).value;
    var second := ReadAll(t, log', EmittedNodes(after));
    ReconcileKeepsProgram(t, pid, after, log');
    NothingLeftClosed(t, issues, pid, before, log, log');
    NothingReconciled(after, second.results, ApplyAdvances(after, second.results).value);
  }

  lemma NothingReconciled(before: Rows, results: seq<ReadResult>, after: Rows)
    requires Reconciled(before, results, after) && DoneIds(results) == {}
    ensures after == before
  {}

  lemma NothingLeftClosed(t: Oracle, issues: string -> ReadAnswer, pid: string, before: Rows, log: Log, log': Log)
    requires ProgramOk(pid, before) && IssuesUnchanged(t, issues)
    ensures
      var after := ApplyAdvances(before, ReadAll(t, log, EmittedNodes(before)).results);
      after.Some? && DoneIds(ReadAll(t, log', EmittedNodes(after.value)).results) == {}
  {
    ReconcileKeepsProgram(t, pid, before, log);
    var first, run := EmittedNodes(before), ReadAll(t, log, EmittedNodes(before));
    var after := ApplyAdvances(before, run.results).value;
    var again, second := EmittedNodes(after), ReadAll(t, log', EmittedNodes(after));
    EmittedAreRead(pid, before);
    EmittedAreRead(pid, after);
    ReadsInOrder(t, log, first);
    ReadsInOrder(t, log', again);
    ReadsFollowIssues(t, issues, log, first);
    ReadsFollowIssues(t, issues, log', again);
    forall i | 0 <= i < |again|
      ensures second.results[i].answer != IssueClosed
    {
      var n := again[i].nodeId;
      assert n in IdSet(again) && n in before && before[n].state == Emitted;
      var j :| 0 <= j < |first| && first[j].nodeId == n;
      assert run.results[j].answer == issues(RefOf(first[j]));
      assert run.results[j].answer == IssueClosed ==> n in DoneIds(run.results);
    }
  }
}
