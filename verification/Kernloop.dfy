/** The program commands as the original runs them: loops over mutable state, each proved equal to its specification. */
module Kernloop {
  import opened Prelude
  import opened Scrum
  import opened LedgerModel
  import opened ParentsFirst
  import opened Tracker
  import opened Emission
  import opened EmitCommand
  import opened ProgramStore
  import Listing
  import LedgerCommands
  import CommandLaws
  import LedgerRuns

  class Kernloop {
    const cfg: Config
    const render: Render
    const store: Store
    const tracker: IssueTracker

    constructor (cfg: Config, render: Render, oracle: Oracle)
      ensures this.cfg == cfg && this.render == render && fresh(store) && fresh(tracker)
      ensures store.programs == map[] && tracker.oracle == oracle && tracker.log == []
    {
      this.cfg := cfg;
      this.render := render;
      store := new Store();
      tracker := new IssueTracker(oracle);
    }

    function TheWorld(): World
      reads this, store, tracker
    {
      World(store.programs, tracker.log)
    }

    function TheEnv(): LedgerRuns.Env
      reads this, tracker
    {
      LedgerRuns.Env(tracker.oracle, render)
    }

    // ----- create, decompose-node, advance -----

    method CreateOp(pid: string, goal: string, stories: seq<StorySpec>) returns (error: Option<LedgerError>)
      modifies store
      ensures var r := LedgerModel.CreateOp(old(store.programs), cfg, pid, goal, stories);
              store.programs == LedgerAfter(old(store.programs), r) && error == ErrorOf(r)
    {
      if |pid| > ID_MAX { return Some(InputRejected); }
      var root := ProgramParent(cfg, pid, goal);
      if !ValidTask(root) { return Some(SchemaRejected); }
      match DecomposeGoal(root, stories)
      case Err(e) => return Some(NotDecomposable(e));
      case Ok(children) =>
        if !AllLabelled(children) { return Some(UnsafeLabel); }
        error := store.CreateProgram(pid, goal, [RootInput(root)] + ChildInputs(pid, children));
    }

    method DecomposeNodeOp(pid: string, nid: string, stories: seq<StorySpec>) returns (error: Option<LedgerError>)
      modifies store
      ensures var r := LedgerModel.DecomposeNodeOp(old(store.programs), pid, nid, stories);
              store.programs == LedgerAfter(old(store.programs), r) && error == ErrorOf(r)
    {
      if |pid| > ID_MAX || |nid| > ID_MAX { return Some(InputRejected); }
      if pid !in store.programs || nid !in store.programs[pid].rows { return Some(InputRejected); }
      match DecomposeGoal(store.programs[pid].rows[nid].task, stories)
      case Err(e) => return Some(NotDecomposable(e));
      case Ok(children) =>
        if !AllLabelled(children) { return Some(UnsafeLabel); }
        error := store.AddNodes(pid, ChildInputs(nid, children));
    }

    method AdvanceOp(pid: string, nid: string, to: Rung, issueRef: Option<string>) returns (error: Option<LedgerError>)
      modifies store
      ensures var r := LedgerModel.AdvanceOp(old(store.programs), pid, nid, to, issueRef);
              store.programs == LedgerAfter(old(store.programs), r) && error == ErrorOf(r)
    {
      if to == Planned { return Some(InputRejected); }
      if |pid| > ID_MAX || |nid| > ID_MAX { return Some(InputRejected); }
      error := store.AdvanceNode(pid, nid, to, issueRef);
    }

    // ----- emit -----

    /** Numbers filed in prior runs, gathered in one pass over the listing. */
    method SeedFiledNumbers(ghost rows: Rows, all: seq<NodeRow>) returns (filed: map<string, string>)
      requires Listing.IsListing(rows, all) && IdSet(all) == rows.Keys
      ensures filed == SeedFiled(rows)
    {
      filed := map[];
      for i := 0 to |all|
        invariant forall n :: n in filed ==> n in SeedFiled(rows) && filed[n] == SeedFiled(rows)[n]
        invariant forall n :: n in filed <==> n in IdSet(all[..i]) && n in SeedFiled(rows)
      {
        IdSetSnoc(all[..i], all[i]);
        assert all[..i + 1] == all[..i] + [all[i]];
        var number := NumberOf(all[i].row);
        if number.Some? { filed := filed[all[i].nodeId := number.value]; }
      }
      assert all[..|all|] == all;
    }

    /** File one planned node and, on a real success, record its ref; a refused ref is reported, never rolled back. */
    method EmitOneNode(ghost e: Emission, pid: string, n: NodeRow, mode: Mode, parentNumber: Option<string>)
      returns (r: NodeResult)
      requires pid in store.programs && e.rows == store.programs[pid].rows && e.log == tracker.log
      requires parentNumber == ParentNumber(e.filed, n)
      modifies store, tracker
      ensures var after := EmitOne(tracker.oracle, mode, render, e, n);
              && after.results == e.results + [r] && tracker.log == after.log
              && pid in old(store.programs) && store.programs == SetRows(old(store.programs), pid, after.rows)
    {
      var sent := IssueFor(render, n, parentNumber);
      var answer := tracker.Create(mode, sent);
      assert SetRows(store.programs, pid, e.rows) == store.programs;
      if answer.CreateFailed? { return NodeResult(n.nodeId, parentNumber, sent, NotFiled); }
      if mode == DryRun { return NodeResult(n.nodeId, parentNumber, sent, Proposed); }
      var error := store.AdvanceNode(pid, n.nodeId, Emitted, Some(answer.ref));
      if error.Some? { return NodeResult(n.nodeId, parentNumber, sent, FiledUnrecorded(answer.ref)); }
      r := NodeResult(n.nodeId, parentNumber, sent, FiledRecorded(answer.ref));
      FilingRecorded(e.(log := tracker.log), n, r, store.programs[pid].rows[n.nodeId]);
    }

    /** Emit the queue in order, threading the numbers filed so far. */
    method EmitInOrder(pid: string, queue: seq<NodeRow>, seed: map<string, string>, mode: Mode)
      returns (results: seq<NodeResult>, filedThisRun: seq<FiledNode>)
      requires pid in store.programs && seed == SeedFiled(store.programs[pid].rows)
      modifies store, tracker
      ensures pid in old(store.programs)
      ensures var e := EmitAll(tracker.oracle, mode, render, StartOf(old(store.programs)[pid].rows, old(tracker.log)),
                               queue);
              && results == e.results && filedThisRun == e.thisRun && tracker.log == e.log
              && store.programs == SetRows(old(store.programs), pid, e.rows)
    {
      ghost var before, start := store.programs, StartOf(store.programs[pid].rows, tracker.log);
      ghost var e := start;
      var filed := seed;
      results, filedThisRun := [], [];
      assert SetRows(before, pid, before[pid].rows) == before;
      for i := 0 to |queue|
        invariant pid in store.programs
        invariant e == EmitAll(tracker.oracle, mode, render, start, queue[..i])
        invariant results == e.results && filedThisRun == e.thisRun && filed == e.filed && tracker.log == e.log
        invariant store.programs == SetRows(before, pid, e.rows)
      {
        assert queue[..i + 1][..i] == queue[..i];
        var n := queue[i];
        var r := EmitOneNode(e, pid, n, mode, ParentNumber(filed, n));
        StepTracks(tracker.oracle, mode, render, e, n, r);
        SetRowsTwice(before, pid, e.rows, EmitOne(tracker.oracle, mode, render, e, n).rows);
        e := EmitOne(tracker.oracle, mode, render, e, n);
        results := results + [r];
        if r.outcome.FiledRecorded? {
          var number := IssueNumber(r.outcome.ref);
          if number.Some? {
            filed := filed[n.nodeId := number.value];
            filedThisRun := filedThisRun + [FiledNode(n.nodeId, number.value, n.row)];
          }
        }
      }
      assert queue[..|queue|] == queue;
    }

    /** Replace the body of each parent filed this run by one that lists its children filed this run. */
    method UpdateEpicBodies(thisRun: seq<FiledNode>) returns (updates: seq<EpicUpdate>)
      modifies tracker
      ensures EpicRun(updates, tracker.log) == UpdateEpics(tracker.oracle, render, thisRun, old(tracker.log), thisRun)
    {
      ghost var log := tracker.log;
      updates := [];
      for i := 0 to |thisRun|
        invariant EpicRun(updates, tracker.log) == UpdateEpics(tracker.oracle, render, thisRun, log, thisRun[..i])
      {
        assert thisRun[..i + 1][..i] == thisRun[..i];
        var parent := thisRun[i];
        var children := ChildrenFiled(thisRun, parent.nodeId);
        var body := EpicBody(IssueBody(render, parent.row.task), Numbers(children));
        if body.Some? {
          var ok := tracker.Edit(parent.number, body.value);
          updates := updates + [EpicUpdate(parent.nodeId, parent.number, NodeIds(children), body.value, ok)];
        }
      }
      assert thisRun[..|thisRun|] == thisRun;
    }

    method FilterByState(nodes: seq<NodeRow>, state: Rung) returns (selected: seq<NodeRow>)
      ensures selected == Listing.WithState(nodes, state)
    {
      selected := [];
      for i := 0 to |nodes|
        invariant selected == Listing.WithState(nodes[..i], state)
      {
        assert nodes[..i + 1][..i] == nodes[..i];
        if Listing.InRung(nodes[i], state) { selected := selected + [nodes[i]]; }
      }
      assert nodes[..|nodes|] == nodes;
    }

    /** `program emit --program`: exactly the specified emit, and it keeps the ledger well formed. */
    method EmitLedgerOp(pid: string, executeFlag: bool, confirm: Option<string>)
      returns (r: Result<EmitReport, LedgerError>)
      modifies store, tracker
      ensures match EmitOp(tracker.oracle, cfg, render, old(TheWorld()), pid, executeFlag, confirm)
              case Err(e) => r == Err(e) && TheWorld() == old(TheWorld())
              case Ok((world, report)) => r == Ok(report) && TheWorld() == world
      ensures !(executeFlag && cfg.tracker == Some(EnforceWrites)) ==> TheWorld() == old(TheWorld())
    {
      ghost var outcome := EmitOp(tracker.oracle, cfg, render, TheWorld(), pid, executeFlag, confirm);
      if outcome.Ok? && !(executeFlag && cfg.tracker == Some(EnforceWrites)) {
        CommandLaws.DryRunChangesNothing(tracker.oracle, cfg, render, TheWorld(), pid, executeFlag, confirm);
      }
      if |pid| > ID_MAX || pid !in store.programs { return Err(InputRejected); }
      var all := store.ListNodes(pid);
      Listing.ListingIsListing(store.programs[pid].rows);
      var planned := FilterByState(all, Planned);
      if planned == [] { return Ok(EmitReport(0, DryRun, [], [])); }
      if !SpamGuardPasses(|planned|, confirm) { return Err(InputRejected); }
      if cfg.tracker.None? && executeFlag { return Err(InputRejected); }
      var mode := ResolveMode(cfg.tracker, executeFlag);
      var seed := SeedFiledNumbers(store.programs[pid].rows, all);
      var queue := OrderParentsFirst(planned);
      var results, filedThisRun := EmitInOrder(pid, queue, seed, mode);
      var updates := [];
      if mode == Execute { updates := UpdateEpicBodies(filedThisRun); }
      return Ok(EmitReport(ExitCode(results, updates), mode, results, updates));
    }

    // ----- reconcile -----

    /** Advance every node whose issue was read as closed; stop at the first advance the ledger refuses. */
    method ApplyClosed(pid: string, results: seq<ReadResult>) returns (advanced: nat, error: Option<LedgerError>)
      requires pid in store.programs
      modifies store
      ensures pid in old(store.programs)
      ensures var r := ApplyAdvances(old(store.programs)[pid].rows, results);
              && (error.None? <==> r.Some?)
              && (r.Some? ==>
                    store.programs == SetRows(old(store.programs), pid, r.value) && advanced == Closed(results))
    {
      ghost var before := store.programs;
      advanced := 0;
      assert SetRows(before, pid, before[pid].rows) == before;
      for i := 0 to |results|
        invariant pid in store.programs
        invariant ApplyAdvances(before[pid].rows, results[..i]).Some?
        invariant store.programs == SetRows(before, pid, ApplyAdvances(before[pid].rows, results[..i]).value)
        invariant advanced == Closed(results[..i])
      {
        assert results[..i + 1][..i] == results[..i];
        if results[i].answer == IssueClosed {
          error := store.AdvanceNode(pid, results[i].nodeId, Done, None);
          if error.Some? {
            RefusalPersists(before[pid].rows, results, i + 1);
            return advanced, error;
          }
          advanced := advanced + 1;
        }
      }
      assert results[..|results|] == results;
      error := None;
    }

    /** Read every issue once, in order; a read is not a ledger write. */
    method ReadStates(emitted: seq<NodeRow>) returns (results: seq<ReadResult>)
      modifies tracker
      ensures ReadRun(results, tracker.log) == ReadAll(tracker.oracle, old(tracker.log), emitted)
    {
      ghost var log := tracker.log;
      results := [];
      for i := 0 to |emitted|
        invariant ReadRun(results, tracker.log) == ReadAll(tracker.oracle, log, emitted[..i])
      {
        assert emitted[..i + 1][..i] == emitted[..i];
        var answer := tracker.Get(RefOf(emitted[i]));
        results := results + [ReadResult(emitted[i].nodeId, RefOf(emitted[i]), answer)];
      }
      assert emitted[..|emitted|] == emitted;
    }

    /** `program reconcile`: exactly the specified reconcile, on any well-formed program. */
    method ReconcileOp(pid: string, executeFlag: bool) returns (r: Result<ReconcileReport, LedgerError>)
      requires pid in store.programs ==> ProgramOk(pid, store.programs[pid].rows)
      modifies store, tracker
      ensures match EmitCommand.ReconcileOp(tracker.oracle, cfg, old(TheWorld()), pid, executeFlag)
              case Err(e) => r == Err(e) && TheWorld() == old(TheWorld())
              case Ok((world, report)) => r == Ok(report) && TheWorld() == world
    {
      if |pid| > ID_MAX || pid !in store.programs || cfg.tracker.None? { return Err(InputRejected); }
      ReconcileUnfolds(tracker.oracle, cfg, TheWorld(), pid, executeFlag);
      var all := store.ListNodes(pid);
      var onRung := FilterByState(all, Emitted);
      var results := ReadStates(WithRef(onRung));
      var exit := if exists x :: x in results && x.answer == ReadFailed then 1 else 0;
      if !executeFlag { return Ok(ReconcileReport(exit, 0, results)); }
      var advanced, error := ApplyClosed(pid, results);
      return Ok(ReconcileReport(exit, advanced, results));
    }

    // ----- dispatch -----

    /** One program verb: exactly one step of the run model, and it keeps the ledger well formed. */
    method RunVerb(op: LedgerRuns.Op)
      requires LedgerOk(store.programs) && ValidConfig(cfg)
      modifies store, tracker
      ensures
        var before := LedgerRuns.State(old(TheWorld()), []);
        TheWorld() == LedgerRuns.Step(old(TheEnv()), before, LedgerRuns.Call(cfg, op)).world
      ensures LedgerOk(store.programs) && LedgerRuns.LedgerSteps(old(store.programs), store.programs)
    {
      LedgerRuns.StepKeepsLedger(TheEnv(), LedgerRuns.State(TheWorld(), []), LedgerRuns.Call(cfg, op));
      match op
      case Create(pid, goal, stories) => var error := CreateOp(pid, goal, stories);
      case DecomposeNode(pid, nid, stories) => var error := DecomposeNodeOp(pid, nid, stories);
      case Advance(pid, nid, to, ref) => var error := AdvanceOp(pid, nid, to, ref);
      case Emit(pid, execute, confirm) => var report := EmitLedgerOp(pid, execute, confirm);
      case Reconcile(pid, execute) => var report := ReconcileOp(pid, execute);
    }
  }

  lemma ReconcileCompletes(t: Oracle, pid: string, rows: Rows, log: Log)
    requires ProgramOk(pid, rows)
    ensures ApplyAdvances(rows, ReadAll(t, log, EmittedNodes(rows)).results).Some?
  {
    CommandLaws.ReconcileKeepsProgram(t, pid, rows, log);
  }

  /** On a well-formed program reconcile always completes, with this result. */
  lemma ReconcileUnfolds(t: Oracle, cfg: Config, w: World, pid: string, executeFlag: bool)
    requires |pid| <= ID_MAX && pid in w.ledger && cfg.tracker.Some? && ProgramOk(pid, w.ledger[pid].rows)
    ensures
      var run := ReadAll(t, w.log, EmittedNodes(w.ledger[pid].rows));
      var exit := if exists r :: r in run.results && r.answer == ReadFailed then 1 else 0;
      var moved := ApplyAdvances(w.ledger[pid].rows, run.results);
      && moved.Some?
      && EmitCommand.ReconcileOp(t, cfg, w, pid, executeFlag) ==
         var ledger := if executeFlag then SetRows(w.ledger, pid, moved.value) else w.ledger;
         var closed := if executeFlag then Closed(run.results) else 0;
         Ok((World(ledger, run.log), ReconcileReport(exit, closed, run.results)))
  {
    ReconcileCompletes(t, pid, w.ledger[pid].rows, w.log);
  }

  lemma SetRowsTwice(ledger: Ledger, pid: string, first: Rows, second: Rows)
    requires pid in ledger
    ensures SetRows(SetRows(ledger, pid, first), pid, second) == SetRows(ledger, pid, second)
  {}

  lemma {:induction false} RefusalPersists(rows: Rows, results: seq<ReadResult>, i: nat)
    requires i <= |results| && ApplyAdvances(rows, results[..i]).None?
    ensures ApplyAdvances(rows, results).None?
    decreases |results| - i
  {
    if i == |results| {
      assert results[..i] == results;
    } else {
      assert results[..i + 1][..i] == results[..i];
      RefusalPersists(rows, results, i + 1);
    }
  }
}
