/** `program emit --program`: filing planned nodes parents-first, recording their refs, linking the tree. */
module Emission {
  import opened Prelude
  import opened Text
  import opened Scrum
  import opened LedgerModel
  import opened Tracker

  /** The replayable payload of an issue body; its text is not modelled further. */
  type Render = TaskContract -> string

  /** The issue body of a task before linking: its goal as prose, a rule, the payload. */
  function IssueBody(render: Render, task: TaskContract): string {
    task.goal + "\n\n---\n" + render(task)
  }

  datatype NodeOutcome = NotFiled | Proposed | FiledUnrecorded(ref: string) | FiledRecorded(ref: string)

  /** One node's report row: the parent number injected and the issue handed to the provider. */
  datatype NodeResult = NodeResult(
    nodeId: string, parentNumber: Option<string>, sent: CreateInput, outcome: NodeOutcome)

  datatype FiledNode = FiledNode(nodeId: string, number: string, row: Row)

  datatype Emission = Emission(
    rows: Rows,
    log: Log,
    filed: map<string, string>,
    thisRun: seq<FiledNode>,
    results: seq<NodeResult>)

  /** The number a row's stored ref resolves to; a planned row has none. */
  function NumberOf(row: Row): Option<string> {
    if row.state == Planned || row.issueRef.None? then None else IssueNumber(row.issueRef.value)
  }

  /** The rows on which `f` is defined, with its value there. */
  function Defined(rows: Rows, f: Row -> Option<string>): map<string, string> {
    map n | n in rows && f(rows[n]).Some? :: f(rows[n]).value
  }

  /** Numbers of the nodes already filed according to the ledger. */
  function SeedFiled(rows: Rows): map<string, string> {
    Defined(rows, NumberOf)
  }

  function ParentNumber(filed: map<string, string>, n: NodeRow): Option<string> {
    if n.row.parentId.Some? && n.row.parentId.value in filed then Some(filed[n.row.parentId.value]) else None
  }

  function IssueFor(render: Render, n: NodeRow, parentNumber: Option<string>): CreateInput {
    CreateInput(n.row.goal, LinkedBody(IssueBody(render, n.row.task), parentNumber), n.row.labels)
  }

  /** The ledger's move to `emitted`; None when it refuses the ref. */
  function RecordFiled(rows: Rows, nodeId: string, ref: string): Option<Row> {
    if nodeId !in rows then None
    else match AdvanceRow(rows[nodeId], Emitted, Some(ref)) case Err(_) => None case Ok(row) => Some(row)
  }

  function Report(e: Emission, n: NodeRow, parentNumber: Option<string>, sent: CreateInput,
                  outcome: NodeOutcome): Emission
  {
    e.(results := e.results + [NodeResult(n.nodeId, parentNumber, sent, outcome)])
  }

  /** After the tracker accepted the issue: record it, or report it as filed but not recorded. */
  function AfterFiling(e: Emission, n: NodeRow, parentNumber: Option<string>, sent: CreateInput,
                       ref: string): Emission
  {
    match RecordFiled(e.rows, n.nodeId, ref)
    case None => Report(e, n, parentNumber, sent, FiledUnrecorded(ref))
    case Some(row) =>
      Linked(Report(e.(rows := e.rows[n.nodeId := row]), n, parentNumber, sent, FiledRecorded(ref)), n,
             IssueNumber(ref))
  }

  /** A recorded node whose ref ends in a number can be linked to for the rest of the run. */
  function Linked(e: Emission, n: NodeRow, number: Option<string>): Emission {
    match number
    case None => e
    case Some(k) => e.(filed := e.filed[n.nodeId := k], thisRun := e.thisRun + [FiledNode(n.nodeId, k, n.row)])
  }

  function EmitOne(t: Oracle, mode: Mode, render: Render, e: Emission, n: NodeRow): Emission {
    var parentNumber := ParentNumber(e.filed, n);
    var sent := IssueFor(render, n, parentNumber);
    var (answer, log) := CreateIssue(t, mode, e.log, sent);
    match answer
    case CreateFailed => Report(e.(log := log), n, parentNumber, sent, NotFiled)
    case Created(ref) =>
      if mode == DryRun then Report(e.(log := log), n, parentNumber, sent, Proposed)
      else AfterFiling(e.(log := log), n, parentNumber, sent, ref)
  }

  function EmitAll(t: Oracle, mode: Mode, render: Render, start: Emission, queue: seq<NodeRow>): Emission {
    if queue == [] then start
    else EmitOne(t, mode, render, EmitAll(t, mode, render, start, queue[..|queue| - 1]), queue[|queue| - 1])
  }

  function StartOf(rows: Rows, log: Log): Emission {
    Emission(rows, log, SeedFiled(rows), [], [])
  }

  // ----- one step -----

  /** The row a recorded filing leaves behind. */
  predicate RecordedRow(before: Row, ref: string, after: Row) {
    LegalMove(before.state, Emitted, Trim(ref)) && after == before.(state := Emitted, issueRef := Some(Trim(ref)))
  }

  lemma RecordIsExact(rows: Rows, nodeId: string, ref: string)
    requires nodeId in rows
    ensures RecordFiled(rows, nodeId, ref).Some? <==> LegalMove(rows[nodeId].state, Emitted, Trim(ref))
    ensures RecordFiled(rows, nodeId, ref).Some? ==>
      RecordedRow(rows[nodeId], ref, RecordFiled(rows, nodeId, ref).value)
  {
    CleanRefIsTrimmed(Some(ref));
    MoveIsExact(rows[nodeId], Emitted, CleanRef(Some(ref)));
  }

  lemma DefinedUpdate(rows: Rows, f: Row -> Option<string>, nodeId: string, row: Row)
    requires nodeId in rows && nodeId !in Defined(rows, f)
    ensures Defined(rows[nodeId := row], f) ==
      if f(row).Some? then Defined(rows, f)[nodeId := f(row).value] else Defined(rows, f)
  {}

  lemma NumberOfRecorded(before: Row, ref: string, after: Row)
    requires RecordedRow(before, ref, after)
    ensures NumberOf(after) == IssueNumber(ref)
  {}

  /** Recording a planned node's ref adds exactly its number to the numbers the ledger knows. */
  lemma SeedAfterRecord(rows: Rows, nodeId: string, ref: string, row: Row)
    requires nodeId in rows && rows[nodeId].state == Planned && RecordedRow(rows[nodeId], ref, row)
    ensures SeedFiled(rows[nodeId := row]) ==
      if IssueNumber(ref).Some? then SeedFiled(rows)[nodeId := IssueNumber(ref).value] else SeedFiled(rows)
  {
    NumberOfRecorded(rows[nodeId], ref, row);
    DefinedUpdate(rows, NumberOf, nodeId, row);
  }

  /** What one outcome says about the row it is about. */
  predicate OutcomeMatches(outcome: NodeOutcome, before: Row, after: Row) {
    match outcome
    case FiledRecorded(ref) => RecordedRow(before, ref, after)
    case FiledUnrecorded(ref) => after == before && !LegalMove(before.state, Emitted, Trim(ref))
    case _ => after == before
  }

  /** A recorded filing with a resolvable number joins the nodes filed this run. */
  function FiledBy(r: NodeResult, n: NodeRow): seq<FiledNode> {
    if r.outcome.FiledRecorded? && IssueNumber(r.outcome.ref).Some?
    then [FiledNode(n.nodeId, IssueNumber(r.outcome.ref).value, n.row)] else []
  }

  /** A step touches one row, reports it truthfully, and keeps the known numbers in step with the ledger. */
  ghost predicate StepOk(render: Render, e: Emission, n: NodeRow, after: Emission) {
    && after.filed == SeedFiled(after.rows)
    && n.nodeId in e.rows && n.nodeId in after.rows && after.rows == e.rows[n.nodeId := after.rows[n.nodeId]]
    && |after.results| == |e.results| + 1 && after.results == e.results + [after.results[|e.results|]]
    && var r := after.results[|e.results|];
       && r.nodeId == n.nodeId && r.parentNumber == ParentNumber(SeedFiled(e.rows), n)
       && r.sent == IssueFor(render, n, r.parentNumber)
       && OutcomeMatches(r.outcome, n.row, after.rows[n.nodeId])
       && after.thisRun == e.thisRun + FiledBy(r, n)
  }

  /** The node is still planned in the ledger, as it was when the queue was built. */
  predicate Pending(e: Emission, n: NodeRow) {
    n.nodeId in e.rows && e.rows[n.nodeId] == n.row && n.row.state == Planned
  }

  lemma ReportStep(render: Render, e: Emission, n: NodeRow, parentNumber: Option<string>, sent: CreateInput,
                   outcome: NodeOutcome)
    requires e.filed == SeedFiled(e.rows) && Pending(e, n)
    requires parentNumber == ParentNumber(e.filed, n) && sent == IssueFor(render, n, parentNumber)
    requires !outcome.FiledRecorded? && OutcomeMatches(outcome, n.row, n.row)
    ensures StepOk(render, e, n, Report(e, n, parentNumber, sent, outcome))
  {
    assert e.rows == e.rows[n.nodeId := e.rows[n.nodeId]];
  }

  lemma RecordStep(render: Render, e: Emission, n: NodeRow, parentNumber: Option<string>, sent: CreateInput,
                   ref: string)
    requires e.filed == SeedFiled(e.rows) && Pending(e, n)
    requires parentNumber == ParentNumber(e.filed, n) && sent == IssueFor(render, n, parentNumber)
    ensures StepOk(render, e, n, AfterFiling(e, n, parentNumber, sent, ref))
  {
    RecordIsExact(e.rows, n.nodeId, ref);
    match RecordFiled(e.rows, n.nodeId, ref)
    case None => ReportStep(render, e, n, parentNumber, sent, FiledUnrecorded(ref));
    case Some(row) =>
      SeedAfterRecord(e.rows, n.nodeId, ref, row);
      RecordedStep(render, e, n, parentNumber, sent, ref, row);
  }

  lemma RecordedStep(render: Render, e: Emission, n: NodeRow, parentNumber: Option<string>, sent: CreateInput,
                     ref: string, row: Row)
    requires n.nodeId in e.rows && RecordedRow(n.row, ref, row) && RecordFiled(e.rows, n.nodeId, ref) == Some(row)
    requires parentNumber == ParentNumber(SeedFiled(e.rows), n) && sent == IssueFor(render, n, parentNumber)
    requires SeedFiled(e.rows[n.nodeId := row]) ==
      if IssueNumber(ref).Some? then e.filed[n.nodeId := IssueNumber(ref).value] else e.filed
    ensures StepOk(render, e, n, AfterFiling(e, n, parentNumber, sent, ref))
  {
    var r := NodeResult(n.nodeId, parentNumber, sent, FiledRecorded(ref));
    FilingRecorded(e, n, r, row);
    RecordedIsOk(render, e, n, AfterFiling(e, n, parentNumber, sent, ref), r, row);
  }

  /** What a recorded filing changes, piece by piece. */
  lemma FilingRecorded(e: Emission, n: NodeRow, r: NodeResult, row: Row)
    requires n.nodeId in e.rows && r.nodeId == n.nodeId && r.outcome.FiledRecorded?
    requires RecordFiled(e.rows, n.nodeId, r.outcome.ref) == Some(row)
    ensures var after := AfterFiling(e, n, r.parentNumber, r.sent, r.outcome.ref);
            && after.rows == e.rows[n.nodeId := row]
            && after.results == e.results + [r]
            && after.thisRun == e.thisRun + FiledBy(r, n)
            && after.filed ==
                 if IssueNumber(r.outcome.ref).Some? then e.filed[n.nodeId := IssueNumber(r.outcome.ref).value]
                 else e.filed
  {
    LinkedFields(Report(e.(rows := e.rows[n.nodeId := row]), n, r.parentNumber, r.sent, r.outcome), n,
                 IssueNumber(r.outcome.ref));
  }

  lemma LinkedFields(e: Emission, n: NodeRow, number: Option<string>)
    ensures
      var after := Linked(e, n, number);
      && after.rows == e.rows && after.results == e.results
      && after.thisRun == e.thisRun + (if number.Some? then [FiledNode(n.nodeId, number.value, n.row)] else [])
      && after.filed == if number.Some? then e.filed[n.nodeId := number.value] else e.filed
  {}

  lemma RecordedIsOk(render: Render, e: Emission, n: NodeRow, after: Emission, r: NodeResult, row: Row)
    requires n.nodeId in e.rows && after.rows == e.rows[n.nodeId := row] && after.filed == SeedFiled(after.rows)
    requires after.results == e.results + [r] && after.thisRun == e.thisRun + FiledBy(r, n)
    requires r.nodeId == n.nodeId && r.parentNumber == ParentNumber(SeedFiled(e.rows), n)
    requires r.sent == IssueFor(render, n, r.parentNumber) && OutcomeMatches(r.outcome, n.row, row)
    ensures StepOk(render, e, n, after)
  {
    assert after.results[|e.results|] == r && after.rows[n.nodeId] == row;
  }

  /** A filing adds one report row, recorded or not, and no further call. */
  lemma FilingReports(e: Emission, n: NodeRow, parentNumber: Option<string>, sent: CreateInput, ref: string)
    ensures
      var after := AfterFiling(e, n, parentNumber, sent, ref);
      && after.log == e.log
      && (|| after.results == e.results + [NodeResult(n.nodeId, parentNumber, sent, FiledUnrecorded(ref))]
          || after.results == e.results + [NodeResult(n.nodeId, parentNumber, sent, FiledRecorded(ref))])
  {}

  lemma OneStep(t: Oracle, mode: Mode, render: Render, e: Emission, n: NodeRow)
    requires e.filed == SeedFiled(e.rows) && Pending(e, n)
    ensures StepOk(render, e, n, EmitOne(t, mode, render, e, n))
  {
    var parentNumber := ParentNumber(e.filed, n);
    var sent := IssueFor(render, n, parentNumber);
    var (answer, log) := CreateIssue(t, mode, e.log, sent);
    match answer
    case CreateFailed => ReportStep(render, e.(log := log), n, parentNumber, sent, NotFiled);
    case Created(ref) =>
      if mode == DryRun { ReportStep(render, e.(log := log), n, parentNumber, sent, Proposed); }
      else { RecordStep(render, e.(log := log), n, parentNumber, sent, ref); }
  }

  /** The bookkeeping of one step, given its report row. */
  predicate Tracks(e: Emission, n: NodeRow, after: Emission, r: NodeResult) {
    && after.thisRun == e.thisRun + FiledBy(r, n)
    && after.filed == if FiledBy(r, n) == [] then e.filed else e.filed[n.nodeId := IssueNumber(r.outcome.ref).value]
  }

  lemma SameLast(init: seq<NodeResult>, a: NodeResult, b: NodeResult)
    requires init + [a] == init + [b]
    ensures a == b
  {
    assert (init + [a])[|init|] == (init + [b])[|init|];
  }

  lemma AfterFilingTracks(e: Emission, n: NodeRow, parentNumber: Option<string>, sent: CreateInput, ref: string,
                          r: NodeResult)
    requires AfterFiling(e, n, parentNumber, sent, ref).results == e.results + [r]
    ensures Tracks(e, n, AfterFiling(e, n, parentNumber, sent, ref), r)
  {
    match RecordFiled(e.rows, n.nodeId, ref)
    case None =>
      SameLast(e.results, NodeResult(n.nodeId, parentNumber, sent, FiledUnrecorded(ref)), r);
      assert e.thisRun + [] == e.thisRun;
    case Some(row) =>
      var filed := NodeResult(n.nodeId, parentNumber, sent, FiledRecorded(ref));
      FilingRecorded(e, n, filed, row);
      SameLast(e.results, filed, r);
  }

  /** How the numbers and nodes filed so far follow from the latest report row. */
  lemma StepTracks(t: Oracle, mode: Mode, render: Render, e: Emission, n: NodeRow, r: NodeResult)
    requires EmitOne(t, mode, render, e, n).results == e.results + [r]
    ensures Tracks(e, n, EmitOne(t, mode, render, e, n), r)
  {
    var parentNumber := ParentNumber(e.filed, n);
    var sent := IssueFor(render, n, parentNumber);
    var (answer, log) := CreateIssue(t, mode, e.log, sent);
    assert (e.results + [r])[|e.results|] == r;
    assert e.thisRun + [] == e.thisRun;
    if answer.Created? && mode == Execute { AfterFilingTracks(e.(log := log), n, parentNumber, sent, answer.ref, r); }
  }
}
