/** Arbitrary runs of create, decompose-node, advance, emit and reconcile against an arbitrary tracker. */
module LedgerRuns {
  import opened Prelude
  import opened ConstraintTags
  import opened Scrum
  import opened Sums
  import opened LedgerTree
  import opened LedgerModel
  import opened LedgerCommands
  import opened Listing
  import opened Tracker
  import opened Emission
  import opened EmissionLaws
  import opened EmitCommand
  import opened CommandLaws

  datatype Op =
    | Create(programId: string, goal: string, stories: seq<StorySpec>)
    | DecomposeNode(programId: string, nodeId: string, stories: seq<StorySpec>)
    | Advance(programId: string, nodeId: string, to: Rung, issueRef: Option<string>)
    | Emit(programId: string, execute: bool, confirm: Option<string>)
    | Reconcile(programId: string, execute: bool)

  /** One invocation: the overlay as it was loaded for it, and the verb. Every invocation loads the overlay anew. */
  datatype Call = Call(cfg: Config, op: Op)

  datatype Env = Env(tracker: Oracle, render: Render)

  /** One createIssue call that reached the tracker: its node, what was sent and answered, whether it was recorded. */
  datatype Filing = Filing(
    programId: string, nodeId: string, sent: CreateInput, answer: CreateAnswer, recorded: bool)

  /** The ledger and the tracker's log, with a record of which node each createIssue call in the log was for. */
  datatype State = State(world: World, filings: seq<Filing>)

  const START := State(World(map[], []), [])

  /** An invalid issue is refused before it reaches the tracker. */
  function FilingOf(pid: string, r: NodeResult): seq<Filing> {
    if ValidCreate(r.sent) then [Filing(pid, r.nodeId, r.sent, AnswerOf(r.outcome), r.outcome.FiledRecorded?)] else []
  }

  function FilingsOf(pid: string, results: seq<NodeResult>): seq<Filing> {
    if results == [] then []
    else FilingsOf(pid, results[..|results| - 1]) + FilingOf(pid, results[|results| - 1])
  }

  /** Only an emit in execute mode files anything. */
  function ReportFilings(pid: string, report: EmitReport): seq<Filing> {
    if report.mode == Execute then FilingsOf(pid, report.results) else []
  }

  function WithLedger(s: State, r: Result<Ledger, LedgerError>): State {
    match r case Err(_) => s case Ok(ledger) => s.(world := s.world.(ledger := ledger))
  }

  /** A rejected command leaves everything as it was. */
  ghost function Step(env: Env, s: State, call: Call): State {
    match call.op
    case Create(pid, goal, stories) => WithLedger(s, CreateOp(s.world.ledger, call.cfg, pid, goal, stories))
    case DecomposeNode(pid, nid, stories) => WithLedger(s, DecomposeNodeOp(s.world.ledger, pid, nid, stories))
    case Advance(pid, nid, to, ref) => WithLedger(s, AdvanceOp(s.world.ledger, pid, nid, to, ref))
    case Emit(pid, execute, confirm) =>
      (match EmitOp(env.tracker, call.cfg, env.render, s.world, pid, execute, confirm)
       case Err(_) => s
       case Ok((w, report)) => State(w, s.filings + ReportFilings(pid, report)))
    case Reconcile(pid, execute) =>
      (match ReconcileOp(env.tracker, call.cfg, s.world, pid, execute)
       case Err(_) => s
       case Ok((w, _)) => s.(world := w))
  }

  ghost function Run(env: Env, s: State, calls: seq<Call>): State {
    if calls == [] then s else Step(env, Run(env, s, calls[..|calls| - 1]), calls[|calls| - 1])
  }

  predicate ValidCalls(calls: seq<Call>) {
    forall i :: 0 <= i < |calls| ==> ValidConfig(calls[i].cfg)
  }

  // ----- one step -----

  function RowsIn(ledger: Ledger, pid: string): Rows {
    if pid in ledger then ledger[pid].rows else map[]
  }

  /** The program stays if it was there, with its goal, and its rows take one step at most. */
  ghost predicate ProgramSteps(before: Ledger, after: Ledger, pid: string) {
    && (pid in before ==> pid in after && after[pid].goal == before[pid].goal)
    && RowsStep(RowsIn(before, pid), RowsIn(after, pid))
  }

  ghost predicate LedgerSteps(before: Ledger, after: Ledger) {
    forall pid :: ProgramSteps(before, after, pid)
  }

  /** Over time no program disappears, its goal stays, and its rows evolve. */
  predicate LedgerEvolves(before: Ledger, after: Ledger) {
    forall pid :: pid in before ==>
      pid in after && after[pid].goal == before[pid].goal && RowsEvolve(before[pid].rows, after[pid].rows)
  }

  lemma LedgerStepsEvolve(before: Ledger, after: Ledger)
    requires LedgerSteps(before, after)
    ensures LedgerEvolves(before, after)
  {
    forall pid | pid in before
      ensures pid in after && after[pid].goal == before[pid].goal && RowsEvolve(before[pid].rows, after[pid].rows)
    {
      assert ProgramSteps(before, after, pid);
      StepsEvolve(before[pid].rows, after[pid].rows);
    }
  }

  /** Only the program `pid` may differ. */
  ghost predicate OthersUntouched(before: Ledger, after: Ledger, pid: string) {
    forall q :: q != pid ==> (q in after <==> q in before) && (q in before ==> after[q] == before[q])
  }

  /** What every command does to the ledger. */
  ghost predicate Kept(before: Ledger, after: Ledger, pid: string) {
    LedgerOk(after) && LedgerSteps(before, after) && OthersUntouched(before, after, pid)
  }

  lemma RowsStay(rows: Rows)
    ensures RowsStep(rows, rows)
  {}

  lemma LedgerStays(ledger: Ledger, pid: string)
    requires LedgerOk(ledger)
    ensures Kept(ledger, ledger, pid)
  {
    forall q
      ensures ProgramSteps(ledger, ledger, q)
    {
      RowsStay(RowsIn(ledger, q));
    }
  }

  lemma ReplaceSteps(before: Ledger, pid: string, program: Program)
    requires pid in before ==> program.goal == before[pid].goal
    requires RowsStep(RowsIn(before, pid), program.rows)
    ensures LedgerSteps(before, before[pid := program])
  {
    var after := before[pid := program];
    forall q
      ensures ProgramSteps(before, after, q)
    {
      if q != pid { RowsStay(RowsIn(before, q)); }
    }
  }

  lemma ReplaceProgram(before: Ledger, pid: string, program: Program)
    requires LedgerOk(before) && ProgramOk(pid, program.rows)
    requires pid in before ==> program.goal == before[pid].goal
    requires RowsStep(RowsIn(before, pid), program.rows)
    ensures Kept(before, before[pid := program], pid)
  {
    ReplaceKeepsOk(before, pid, program);
    ReplaceSteps(before, pid, program);
  }

  lemma InsertSteps(rows: Rows, inputs: seq<NodeInput>)
    requires InsertAll(rows, inputs).Some?
    ensures RowsStep(rows, InsertAll(rows, inputs).value)
  {
    InsertIsExact(rows, inputs);
    var after := InsertAll(rows, inputs).value;
    forall n | n in after && n !in rows
      ensures after[n].state == Planned
    {
      assert n in NewIds(inputs);
      var i :| 0 <= i < |inputs| && inputs[i].nodeId == n;
    }
  }

  /** Every row of a new program is planned. */
  lemma CreatedSteps(root: TaskContract, inputs: seq<NodeInput>)
    requires InsertAll(RootRows(root), inputs).Some?
    ensures RowsStep(map[], InsertAll(RootRows(root), inputs).value)
  {
    InsertSteps(RootRows(root), inputs);
    var rows, after := RootRows(root), InsertAll(RootRows(root), inputs).value;
    forall n | n in after
      ensures after[n].state == Planned
    {
      if n in rows { assert RowSteps(rows[n], after[n]) && rows[n].state == Planned; InsertIsExact(rows, inputs); }
    }
  }

  lemma CreateStep(env: Env, cfg: Config, s: State, pid: string, goal: string, stories: seq<StorySpec>)
    requires LedgerOk(s.world.ledger) && ValidConfig(cfg)
    ensures Kept(s.world.ledger, Step(env, s, Call(cfg, Create(pid, goal, stories))).world.ledger, pid)
  {
    var ledger, r := s.world.ledger, CreateOp(s.world.ledger, cfg, pid, goal, stories);
    CreateIsExact(ledger, cfg, pid, goal, stories);
    if r.Ok? {
      var root := ProgramParent(cfg, pid, goal);
      CreatedSteps(root, ChildInputs(pid, CreatedChildren(root, stories)));
      ReplaceProgram(ledger, pid, r.value[pid]);
    } else {
      LedgerStays(ledger, pid);
    }
  }

  lemma DecomposeStep(env: Env, cfg: Config, s: State, pid: string, nid: string, stories: seq<StorySpec>)
    requires LedgerOk(s.world.ledger)
    ensures Kept(s.world.ledger, Step(env, s, Call(cfg, DecomposeNode(pid, nid, stories))).world.ledger, pid)
  {
    var ledger := s.world.ledger;
    DecomposeNodeIsExact(ledger, pid, nid, stories);
    if CanDecompose(ledger, pid, nid, stories) {
      var children := ChildrenOf(ledger[pid].rows[nid], stories);
      InsertSteps(ledger[pid].rows, ChildInputs(nid, children));
      ReplaceProgram(ledger, pid, Grown(ledger[pid], nid, children));
    } else {
      LedgerStays(ledger, pid);
    }
  }

  lemma AdvancedRow(before: Row, to: Rung, issueRef: Option<string>)
    requires AdvanceRow(before, to, issueRef).Ok?
    ensures RowSteps(before, AdvanceRow(before, to, issueRef).value)
    ensures RowOk(before) ==> RowOk(AdvanceRow(before, to, issueRef).value)
  {
    CleanRefIsTrimmed(issueRef);
    MoveIsExact(before, to, CleanRef(issueRef));
    if RowOk(before) { var row := MovedRow(before, to, CleanRef(issueRef)); }
  }

  /** A successful advance replaces one row by one that is a step ahead of it. */
  lemma AdvanceOutcome(ledger: Ledger, pid: string, nid: string, to: Rung, issueRef: Option<string>) returns (row: Row)
    requires AdvanceOp(ledger, pid, nid, to, issueRef).Ok?
    ensures pid in ledger && nid in ledger[pid].rows && RowSteps(ledger[pid].rows[nid], row)
    ensures RowOk(ledger[pid].rows[nid]) ==> RowOk(row)
    ensures AdvanceOp(ledger, pid, nid, to, issueRef).value == SetRows(ledger, pid, ledger[pid].rows[nid := row])
  {
    row := AdvanceRow(ledger[pid].rows[nid], to, issueRef).value;
    AdvancedRow(ledger[pid].rows[nid], to, issueRef);
  }

  lemma MovedRowsStep(rows: Rows, nid: string, row: Row)
    requires nid in rows && RowSteps(rows[nid], row)
    ensures RowsStep(rows, rows[nid := row])
  {
    var after := rows[nid := row];
    assert forall n :: n in rows && n != nid ==> after[n] == rows[n];
  }

  lemma AdvancedLedger(ledger: Ledger, pid: string, nid: string, row: Row)
    requires LedgerOk(ledger) && pid in ledger && nid in ledger[pid].rows
    requires RowSteps(ledger[pid].rows[nid], row) && (RowOk(ledger[pid].rows[nid]) ==> RowOk(row))
    ensures Kept(ledger, SetRows(ledger, pid, ledger[pid].rows[nid := row]), pid)
  {
    var rows := ledger[pid].rows;
    ReplaceRow(pid, rows, nid, row);
    MovedRowsStep(rows, nid, row);
    ReplaceProgram(ledger, pid, ledger[pid].(rows := rows[nid := row]));
  }

  lemma AdvanceStep(env: Env, cfg: Config, s: State, pid: string, nid: string, to: Rung, issueRef: Option<string>)
    requires LedgerOk(s.world.ledger)
    ensures Kept(s.world.ledger, Step(env, s, Call(cfg, Advance(pid, nid, to, issueRef))).world.ledger, pid)
  {
    var ledger := s.world.ledger;
    if AdvanceOp(ledger, pid, nid, to, issueRef).Ok? {
      var row := AdvanceOutcome(ledger, pid, nid, to, issueRef);
      AdvancedLedger(ledger, pid, nid, row);
    } else {
      LedgerStays(ledger, pid);
    }
  }

  /** An emit that lists at least one planned node: the only step that files anything. */
  ghost predicate Files(env: Env, s: State, call: Call) {
    && call.op.Emit? && call.op.programId in s.world.ledger
    && EmitOp(env.tracker, call.cfg, env.render, s.world, call.op.programId, call.op.execute, call.op.confirm).Ok?
    && PlannedNodes(s.world.ledger[call.op.programId].rows) != []
  }

  function ModeOf(call: Call): Mode
    requires call.op.Emit?
  {
    ModeFor(call.cfg, call.op.execute)
  }

  /** What such an emit does: its whole planned listing, in order. */
  ghost function FilingRun(env: Env, s: State, call: Call): (World, EmitReport)
    requires call.op.Emit? && call.op.programId in s.world.ledger
  {
    var pid := call.op.programId;
    FileNodes(env.tracker, ModeOf(call), env.render, s.world, pid, PlannedNodes(s.world.ledger[pid].rows))
  }

  lemma FilesListing(env: Env, s: State, call: Call)
    requires Files(env, s, call) && ProgramOk(call.op.programId, s.world.ledger[call.op.programId].rows)
    ensures Step(env, s, call) ==
      State(FilingRun(env, s, call).0, s.filings + ReportFilings(call.op.programId, FilingRun(env, s, call).1))
  {
    EmitFilesListing(env.tracker, call.cfg, env.render, s.world, call.op.programId, call.op.execute, call.op.confirm);
  }

  lemma NothingFiled(env: Env, s: State, call: Call)
    requires call.op.Emit? && !Files(env, s, call)
    ensures Step(env, s, call) == s
  {
    assert s.filings + [] == s.filings;
  }

  lemma EmitStep(env: Env, s: State, call: Call)
    requires LedgerOk(s.world.ledger) && call.op.Emit?
    ensures Kept(s.world.ledger, Step(env, s, call).world.ledger, call.op.programId)
  {
    var ledger, pid := s.world.ledger, call.op.programId;
    if Files(env, s, call) {
      var rows := ledger[pid].rows;
      FilesListing(env, s, call);
      EmitKeepsProgram(env.tracker, ModeOf(call), env.render, pid, rows, s.world.log);
      var e := EmitAll(env.tracker, ModeOf(call), env.render, StartOf(rows, s.world.log), PlannedNodes(rows));
      ReplaceProgram(ledger, pid, ledger[pid].(rows := e.rows));
    } else {
      NothingFiled(env, s, call);
      LedgerStays(ledger, pid);
    }
  }

  /** What a reconcile leaves in the ledger. */
  lemma ReconciledLedger(t: Oracle, cfg: Config, w: World, pid: string, execute: bool)
    requires ReconcileOp(t, cfg, w, pid, execute).Ok?
    ensures pid in w.ledger
    ensures
      var after := ReconcileOp(t, cfg, w, pid, execute).value.0.ledger;
      var moved := ApplyAdvances(w.ledger[pid].rows, ReadAll(t, w.log, EmittedNodes(w.ledger[pid].rows)).results);
      after == w.ledger || (moved.Some? && after == SetRows(w.ledger, pid, moved.value))
  {}

  lemma ReconcileStep(env: Env, cfg: Config, s: State, pid: string, execute: bool)
    requires LedgerOk(s.world.ledger)
    ensures Kept(s.world.ledger, Step(env, s, Call(cfg, Reconcile(pid, execute))).world.ledger, pid)
  {
    ReconcileKept(env.tracker, cfg, s.world, pid, execute);
  }

  lemma ReconcileKept(t: Oracle, cfg: Config, w: World, pid: string, execute: bool)
    requires LedgerOk(w.ledger)
    ensures
      var r := ReconcileOp(t, cfg, w, pid, execute);
      Kept(w.ledger, if r.Ok? then r.value.0.ledger else w.ledger, pid)
  {
    LedgerStays(w.ledger, pid);
    if ReconcileOp(t, cfg, w, pid, execute).Ok? {
      ReconciledLedger(t, cfg, w, pid, execute);
      AppliedLedger(t, w, pid);
    }
  }

  lemma AppliedLedger(t: Oracle, w: World, pid: string)
    requires LedgerOk(w.ledger) && pid in w.ledger
    ensures
      var moved := ApplyAdvances(w.ledger[pid].rows, ReadAll(t, w.log, EmittedNodes(w.ledger[pid].rows)).results);
      moved.Some? && Kept(w.ledger, SetRows(w.ledger, pid, moved.value), pid)
  {
    var rows := w.ledger[pid].rows;
    ReconcileKeepsProgram(t, pid, rows, w.log);
    var moved := ApplyAdvances(rows, ReadAll(t, w.log, EmittedNodes(rows)).results).value;
    ReplaceProgram(w.ledger, pid, w.ledger[pid].(rows := moved));
  }

  /**
   * Every command keeps the ledger well formed and touches one program at most; each row there stays or climbs one
   * rung, and a new row starts planned.
   */
  lemma StepKeepsLedger(env: Env, s: State, call: Call)
    requires LedgerOk(s.world.ledger) && ValidConfig(call.cfg)
    ensures Kept(s.world.ledger, Step(env, s, call).world.ledger, call.op.programId)
  {
    match call.op
    case Create(pid, goal, stories) => CreateStep(env, call.cfg, s, pid, goal, stories);
    case DecomposeNode(pid, nid, stories) => DecomposeStep(env, call.cfg, s, pid, nid, stories);
    case Advance(pid, nid, to, ref) => AdvanceStep(env, call.cfg, s, pid, nid, to, ref);
    case Emit(_, _, _) => EmitStep(env, s, call);
    case Reconcile(pid, execute) => ReconcileStep(env, call.cfg, s, pid, execute);
  }

  // ----- whole runs -----

  lemma EvolvesTransitive(a: Ledger, b: Ledger, c: Ledger)
    requires LedgerEvolves(a, b) && LedgerEvolves(b, c)
    ensures LedgerEvolves(a, c)
  {}

  /** Over any run the ledger stays well formed, and every row it ever held evolves forward from what it was. */
  lemma {:induction false} RunKeepsLedger(env: Env, s: State, calls: seq<Call>)
    requires LedgerOk(s.world.ledger) && ValidCalls(calls)
    ensures LedgerOk(Run(env, s, calls).world.ledger)
    ensures LedgerEvolves(s.world.ledger, Run(env, s, calls).world.ledger)
  {
    if calls == [] {
      LedgerStays(s.world.ledger, "");
      LedgerStepsEvolve(s.world.ledger, s.world.ledger);
    } else {
      var init := calls[..|calls| - 1];
      RunKeepsLedger(env, s, init);
      StepKeepsLedger(env, Run(env, s, init), calls[|calls| - 1]);
      LedgerStepsEvolve(Run(env, s, init).world.ledger, Run(env, s, calls).world.ledger);
      EvolvesTransitive(s.world.ledger, Run(env, s, init).world.ledger, Run(env, s, calls).world.ledger);
    }
  }

  lemma LastStep(env: Env, s: State, calls: seq<Call>, pid: string)
    requires LedgerOk(s.world.ledger) && ValidCalls(calls) && calls != []
    ensures ProgramSteps(Run(env, s, calls[..|calls| - 1]).world.ledger, Run(env, s, calls).world.ledger, pid)
  {
    RunKeepsLedger(env, s, calls[..|calls| - 1]);
    StepKeepsLedger(env, Run(env, s, calls[..|calls| - 1]), calls[|calls| - 1]);
  }

  /** Reached from nothing by some run, each of whose invocations may load another overlay. */
  ghost predicate Reachable(env: Env, s: State) {
    exists calls :: ValidCalls(calls) && Run(env, START, calls) == s
  }

  lemma ReachableIsOk(env: Env, s: State)
    requires Reachable(env, s)
    ensures LedgerOk(s.world.ledger)
  {
    var calls :| ValidCalls(calls) && Run(env, START, calls) == s;
    RunKeepsLedger(env, START, calls);
  }

  /**
   * In every reachable ledger, on every dimension, pairwise non-ancestors (the leaves, say) fit in the root's budget.
   */
  lemma BudgetsHoldEverywhere(env: Env, s: State, pid: string, nodes: set<string>, d: Dimension)
    requires Reachable(env, s) && pid in s.world.ledger
    ensures
      var rows := s.world.ledger[pid].rows;
      var tree := Skeleton(rows);
      && TreeOk(pid, tree) && Shortens(tree)
      && (Antichain(tree, nodes) ==> Sum(Weight(tree, d), nodes) <= Amount(rows[pid].task.budget, d))
      && Sum(Weight(tree, d), Leaves(tree)) <= Amount(rows[pid].task.budget, d)
  {
    var tree := Skeleton(s.world.ledger[pid].rows);
    ReachableIsOk(env, s);
    TreeShortens(pid, tree);
    LeavesWithinRoot(pid, tree, d);
    if Antichain(tree, nodes) { AntichainWithinRoot(pid, tree, nodes, d); }
  }

  /** Every non-root node of a reachable ledger: id, altitude and inherited constraints, relative to its parent. */
  lemma NodesDescendEverywhere(env: Env, s: State, pid: string, n: string)
    requires Reachable(env, s) && pid in s.world.ledger && n in s.world.ledger[pid].rows && n != pid
    ensures
      var tree := Skeleton(s.world.ledger[pid].rows);
      && tree[n].parentId.Some? && tree[n].parentId.value in tree
      && (exists k: nat :: k > 0 && n == ChildId(tree[n].parentId.value, k))
      && AltitudeOf(tree, n).Some?
      && (tree[n].parentId.value != pid ==>
           AltitudeOf(tree, tree[n].parentId.value).Some?
           && ChildAltitude(AltitudeOf(tree, tree[n].parentId.value).value) == AltitudeOf(tree, n))
      && Shortens(tree) && Depth(tree, n) <= 3 && AncestorOrSelf(tree, pid, n)
      && forall a :: AncestorOrSelf(tree, a, n) ==>
           a in tree && Free(tree[a].task.constraints) <= Free(tree[n].task.constraints)
  {
    var tree := Skeleton(s.world.ledger[pid].rows);
    ReachableIsOk(env, s);
    TreeShortens(pid, tree);
    ParentSortsEarlier(pid, tree, n);
    AltitudeDescends(pid, tree, n);
    DepthIsBounded(pid, tree, n);
    RootIsAncestor(pid, tree, n);
    forall a | AncestorOrSelf(tree, a, n) { ConstraintsInherit(pid, tree, a, n); }
  }

  /** The rung and ref of every row of a reachable ledger agree, and the ref is one the ledger would accept. */
  lemma RungsHoldEverywhere(env: Env, s: State, pid: string, n: string)
    requires Reachable(env, s) && pid in s.world.ledger && n in s.world.ledger[pid].rows
    ensures RungOk(s.world.ledger[pid].rows[n])
  {
    ReachableIsOk(env, s);
    assert RowOk(s.world.ledger[pid].rows[n]);
  }

  // ----- the ladder of one node -----

  const LADDER := [Planned, Emitted, Done]

  function RungIn(ledger: Ledger, pid: string, n: string): Option<Rung> {
    if n in RowsIn(ledger, pid) then Some(RowsIn(ledger, pid)[n].state) else None
  }

  function Visit(path: seq<Rung>, rung: Option<Rung>): seq<Rung> {
    if rung.None? || (path != [] && path[|path| - 1] == rung.value) then path else path + [rung.value]
  }

  /** The rungs a node has been on over a run, in order, repeats left out. */
  ghost function RungPath(env: Env, calls: seq<Call>, pid: string, n: string): seq<Rung> {
    if calls == [] then []
    else Visit(RungPath(env, calls[..|calls| - 1], pid, n), RungIn(Run(env, START, calls).world.ledger, pid, n))
  }

  predicate OnLadder(path: seq<Rung>, rung: Option<Rung>) {
    && path <= LADDER
    && rung == if path == [] then None else Some(path[|path| - 1])
  }

  lemma LadderStep(before: Ledger, after: Ledger, pid: string, n: string, path: seq<Rung>)
    requires ProgramSteps(before, after, pid) && OnLadder(path, RungIn(before, pid, n))
    ensures OnLadder(Visit(path, RungIn(after, pid, n)), RungIn(after, pid, n))
  {
    if n in RowsIn(before, pid) {
      assert RowSteps(RowsIn(before, pid)[n], RowsIn(after, pid)[n]);
    }
  }

  /** Over any run the rungs of a node are a prefix of planned, emitted, done: none is skipped, none is revisited. */
  lemma {:induction false} StatesAreAPrefix(env: Env, calls: seq<Call>, pid: string, n: string)
    requires ValidCalls(calls)
    ensures RungPath(env, calls, pid, n) <= LADDER
    ensures OnLadder(RungPath(env, calls, pid, n), RungIn(Run(env, START, calls).world.ledger, pid, n))
  {
    if calls != [] {
      var init := calls[..|calls| - 1];
      StatesAreAPrefix(env, init, pid, n);
      LastStep(env, START, calls, pid);
      var before, after := Run(env, START, init).world.ledger, Run(env, START, calls).world.ledger;
      LadderStep(before, after, pid, n, RungPath(env, init, pid, n));
    }
  }

  // ----- a finite lifetime -----

  function Started(rows: Rows): set<string> { set n | n in rows && rows[n].state != Planned }

  function Finished(rows: Rows): set<string> { set n | n in rows && rows[n].state == Done }

  /** Nodes stored plus rungs climbed. */
  function Progress(rows: Rows): nat {
    |rows.Keys| + |Started(rows)| + |Finished(rows)|
  }

  lemma ProperSubsetSize(a: set<string>, b: set<string>)
    requires a <= b
    ensures |a| <= |b|
    ensures a != b ==> |a| < |b|
  {
    assert b == a + (b - a);
    assert |b| == |a| + |b - a|;
  }

  /** Progress never shrinks, and grows whenever anything changed. */
  lemma ProgressGrows(before: Rows, after: Rows)
    requires RowsEvolve(before, after)
    ensures Progress(before) <= Progress(after)
    ensures before != after ==> Progress(before) < Progress(after)
  {
    forall n | n in before
      ensures n in Started(before) ==> n in Started(after)
      ensures n in Finished(before) ==> n in Finished(after)
    {
      assert RowEvolves(before[n], after[n]);
    }
    ProperSubsetSize(before.Keys, after.Keys);
    ProperSubsetSize(Started(before), Started(after));
    ProperSubsetSize(Finished(before), Finished(after));
    if before.Keys == after.Keys && Started(before) == Started(after) && Finished(before) == Finished(after) {
      forall n | n in before
        ensures after[n] == before[n]
      {
        assert RowEvolves(before[n], after[n]);
        assert n in Started(before) <==> n in Started(after);
        assert n in Finished(before) <==> n in Finished(after);
      }
    }
  }

  lemma ProgressIsBounded(pid: string, rows: Rows)
    requires ProgramOk(pid, rows)
    ensures pid in rows && Progress(rows) <= 9 * rows[pid].task.budget.tokens + 3
  {
    TreeSize(pid, Skeleton(rows));
    assert Skeleton(rows).Keys == rows.Keys;
    assert |Skeleton(rows)| == |rows.Keys|;
    ProperSubsetSize(Started(rows), rows.Keys);
    ProperSubsetSize(Finished(rows), rows.Keys);
  }

  /** The ledger before a run and after each of its steps. */
  ghost function History(env: Env, s: State, calls: seq<Call>): seq<Ledger> {
    seq(|calls| + 1, i requires 0 <= i <= |calls| => Run(env, s, calls[..i]).world.ledger)
  }

  /** How many steps changed program `pid` after it came to exist. */
  function Changes(history: seq<Ledger>, pid: string): nat {
    if |history| <= 1 then 0
    else
      var before, after := history[|history| - 2], history[|history| - 1];
      var changed := pid in before && (pid !in after || after[pid] != before[pid]);
      Changes(history[..|history| - 1], pid) + (if changed then 1 else 0)
  }

  lemma StepMakesProgress(before: Ledger, after: Ledger, pid: string)
    requires ProgramSteps(before, after, pid) && pid in before
    ensures pid in after
    ensures Progress(before[pid].rows) + (if after[pid] != before[pid] then 1 else 0) <= Progress(after[pid].rows)
  {
    StepsEvolve(before[pid].rows, after[pid].rows);
    ProgressGrows(before[pid].rows, after[pid].rows);
  }

  ghost predicate StepByStep(history: seq<Ledger>, pid: string) {
    forall i :: 0 < i < |history| ==> ProgramSteps(history[i - 1], history[i], pid)
  }

  lemma {:induction false} ChangesMakeProgress(history: seq<Ledger>, pid: string)
    requires StepByStep(history, pid) && history != [] && pid in history[0]
    ensures
      var last := history[|history| - 1];
      pid in last && Changes(history, pid) + Progress(history[0][pid].rows) <= Progress(last[pid].rows)
  {
    if |history| > 1 {
      ChangesMakeProgress(history[..|history| - 1], pid);
      StepMakesProgress(history[|history| - 2], history[|history| - 1], pid);
    }
  }

  lemma HistoryStep(env: Env, s: State, calls: seq<Call>, pid: string, i: nat)
    requires LedgerOk(s.world.ledger) && ValidCalls(calls) && 0 < i <= |calls|
    ensures ProgramSteps(History(env, s, calls)[i - 1], History(env, s, calls)[i], pid)
  {
    assert calls[..i][..i - 1] == calls[..i - 1];
    LastStep(env, s, calls[..i], pid);
  }

  lemma HistoryEnds(env: Env, s: State, calls: seq<Call>)
    ensures
      var history := History(env, s, calls);
      history[0] == s.world.ledger && history[|calls|] == Run(env, s, calls).world.ledger
  {
    assert calls[..0] == [] && calls[..|calls|] == calls;
  }

  lemma RootIsFrozen(pid: string, first: Rows, last: Rows)
    requires pid in first && RowsEvolve(first, last)
    ensures pid in last && last[pid].task == first[pid].task
  {}

  /** There is room for at most 9T + 2 units of progress after a program exists. */
  lemma ProgressRoom(pid: string, first: Rows, last: Rows)
    requires ProgramOk(pid, first) && ProgramOk(pid, last) && RowsEvolve(first, last)
    ensures pid in first && Progress(last) <= 9 * first[pid].task.budget.tokens + 2 + Progress(first)
  {
    ProgressIsBounded(pid, first);
    ProgressIsBounded(pid, last);
    RootIsFrozen(pid, first, last);
    ProgressIsPositive(pid, first);
  }

  lemma ProgressIsPositive(pid: string, rows: Rows)
    requires pid in rows
    ensures Progress(rows) >= 1
  {}

  /**
   * A program's life is finite: with T root tokens, at most 9T + 2 steps of any run, of any length and against any
   * tracker, ever change it after it exists. In particular its successful decompositions and advances are bounded.
   */
  lemma LifetimeIsFinite(env: Env, s: State, calls: seq<Call>, pid: string)
    requires LedgerOk(s.world.ledger) && ValidCalls(calls) && pid in s.world.ledger
    ensures pid in s.world.ledger[pid].rows
    ensures Changes(History(env, s, calls), pid) <= 9 * s.world.ledger[pid].rows[pid].task.budget.tokens + 2
  {
    var history := History(env, s, calls);
    forall i | 0 < i < |history|
      ensures ProgramSteps(history[i - 1], history[i], pid)
    {
      HistoryStep(env, s, calls, pid, i);
    }
    HistoryEnds(env, s, calls);
    RunKeepsLedger(env, s, calls);
    ChangesMakeProgress(history, pid);
    ProgressRoom(pid, s.world.ledger[pid].rows, Run(env, s, calls).world.ledger[pid].rows);
  }
}
