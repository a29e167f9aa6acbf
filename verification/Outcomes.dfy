/** What the commands accept, what they leave behind and what they report, each spelled out on its own terms. */
module Outcomes {
  import opened Prelude
  import opened Text
  import opened ConstraintTags
  import opened Scrum
  import opened StoryLaws
  import LedgerTree
  import opened LedgerModel
  import opened LedgerCommands
  import opened ParentsFirst
  import opened Listing
  import opened Tracker
  import opened Emission
  import opened EmissionLaws
  import opened EmitCommand
  import opened CommandLaws
  import opened CallLog

  // ----- when an emit is accepted, and what its exit code means -----

  /**
   * An emit is refused exactly for its id, an unconfirmed count above twenty, or `--execute` without a tracker block.
   */
  lemma EmitIsAccepted(t: Oracle, cfg: Config, render: Render, w: World, pid: string, flag: bool,
                       confirm: Option<string>)
    ensures EmitOp(t, cfg, render, w, pid, flag, confirm).Ok? <==>
      && |pid| <= 256 && pid in w.ledger
      && var planned := PlannedNodes(w.ledger[pid].rows);
         || planned == []
         || ((|planned| <= 20 || confirm == Some(Decimal(|planned|))) && (flag ==> cfg.tracker.Some?))
    ensures EmitOp(t, cfg, render, w, pid, flag, confirm).Err? ==>
      EmitOp(t, cfg, render, w, pid, flag, confirm).error == InputRejected
  {}

  lemma FailedStaysPlanned(t: Oracle, render: Render, pid: string, before: Rows, log: Log, i: nat)
    requires ProgramOk(pid, before)
    requires
      var results := EmitAll(t, Execute, render, StartOf(before, log), PlannedNodes(before)).results;
      i < |results| && NodeFailed(results[i])
    ensures PlannedNodes(EmitAll(t, Execute, render, StartOf(before, log), PlannedNodes(before)).rows) != []
  {
    var queue := PlannedNodes(before);
    PlannedIsAQueue(pid, before);
    EmitIsTruthful(t, Execute, render, before, log, queue);
    var e := EmitAll(t, Execute, render, StartOf(before, log), queue);
    StateAfter(render, before, queue, e, i);
    StillPlanned(e.rows, queue[i].nodeId);
  }

  lemma NoneFailedMeansNonePlanned(t: Oracle, render: Render, pid: string, before: Rows, log: Log)
    requires ProgramOk(pid, before)
    ensures
      var e := EmitAll(t, Execute, render, StartOf(before, log), PlannedNodes(before));
      NoneFailed(e.results) <==> PlannedNodes(e.rows) == []
  {
    var results := EmitAll(t, Execute, render, StartOf(before, log), PlannedNodes(before)).results;
    if NoneFailed(results) {
      NoFailureMeansRecorded(t, render, pid, before, log);
    } else {
      var r :| r in results && NodeFailed(r);
      var i :| 0 <= i < |results| && results[i] == r;
      FailedStaysPlanned(t, render, pid, before, log, i);
    }
  }

  lemma StillPlanned(rows: Rows, n: string)
    requires n in rows && rows[n].state == Planned
    ensures PlannedNodes(rows) != []
  {
    SelectedRows(rows, Planned);
    assert n in IdSet(PlannedNodes(rows));
  }

  lemma DryExit(t: Oracle, render: Render, before: Rows, log: Log, queue: seq<NodeRow>)
    ensures
      var results := EmitAll(t, DryRun, render, StartOf(before, log), queue).results;
      NoneFailed(results) <==> forall r :: r in results ==> IssueText(r.sent)
  {
    DryRunIsPure(t, render, before, log, queue);
    var results := EmitAll(t, DryRun, render, StartOf(before, log), queue).results;
    forall r | r in results
      ensures NodeFailed(r) <==> !IssueText(r.sent)
    {
      var i :| 0 <= i < |results| && results[i] == r;
      ValidIsText(r.sent);
    }
  }

  lemma ExitOf(results: seq<NodeResult>, updates: seq<EpicUpdate>)
    ensures ExitCode(results, updates) <= 1
    ensures ExitCode(results, updates) == 0 <==> NoneFailed(results) && forall u :: u in updates ==> u.ok
  {}

  /**
   * An execute-mode emit exits 0 exactly when it leaves nothing planned and every edit was accepted; a dry run exits 0
   * exactly when every issue it would send is within the provider's limits. Any other exit code is 1.
   */
  lemma ExitIsExact(t: Oracle, cfg: Config, render: Render, w: World, pid: string, flag: bool, confirm: Option<string>)
    requires LedgerOk(w.ledger) && EmitOp(t, cfg, render, w, pid, flag, confirm).Ok?
    requires PlannedNodes(w.ledger[pid].rows) != []
    ensures
      var (after, report) := EmitOp(t, cfg, render, w, pid, flag, confirm).value;
      && pid in after.ledger && report.exit <= 1
      && (report.exit == 0 <==>
            if flag && cfg.tracker == Some(EnforceWrites) then
              PlannedNodes(after.ledger[pid].rows) == [] && forall u :: u in report.updates ==> u.ok
            else forall r :: r in report.results ==> IssueText(r.sent))
  {
    var rows := w.ledger[pid].rows;
    var mode := ModeFor(cfg, flag);
    EmitFilesListing(t, cfg, render, w, pid, flag, confirm);
    var report := FileNodes(t, mode, render, w, pid, PlannedNodes(rows)).1;
    ExitOf(report.results, report.updates);
    if mode == Execute {
      NoneFailedMeansNonePlanned(t, render, pid, rows, w.log);
    } else {
      DryExit(t, render, rows, w.log, PlannedNodes(rows));
    }
  }

  // ----- reconcile -----

  /** The reads that a reconcile's report stands for. */
  function ReadCalls(results: seq<ReadResult>): Log {
    seq(|results|, i requires 0 <= i < |results| => ReadCall(results[i].issueRef, results[i].answer))
  }

  lemma {:induction false} ReadsAreTheCalls(t: Oracle, log: Log, nodes: seq<NodeRow>)
    ensures ReadAll(t, log, nodes).log == log + ReadCalls(ReadAll(t, log, nodes).results)
  {
    if nodes == [] {
      assert log + [] == log;
    } else {
      ReadsAreTheCalls(t, log, nodes[..|nodes| - 1]);
      var init := ReadAll(t, log, nodes[..|nodes| - 1]).results;
      var last := ReadAll(t, log, nodes).results[|init|];
      assert ReadCalls(init + [last]) == ReadCalls(init) + [ReadCall(last.issueRef, last.answer)];
    }
  }

  /** The emitted nodes, by ascending id, each read under its stored ref. */
  ghost predicate ReadsTheEmitted(rows: Rows, results: seq<ReadResult>) {
    && (forall i, j :: 0 <= i < j < |results| ==> Less(results[i].nodeId, results[j].nodeId))
    && (forall i :: 0 <= i < |results| ==>
          results[i].nodeId in rows && rows[results[i].nodeId].issueRef == Some(results[i].issueRef))
    && forall n :: n in rows && rows[n].state == Emitted <==>
         exists i :: 0 <= i < |results| && results[i].nodeId == n
  }

  lemma ListedAreRead(rows: Rows, nodes: seq<NodeRow>, results: seq<ReadResult>)
    requires IsListing(rows, nodes) && |results| == |nodes|
    requires forall i :: 0 <= i < |nodes| ==>
      results[i].nodeId == nodes[i].nodeId && nodes[i].row.issueRef == Some(results[i].issueRef)
    requires forall n :: n in rows && rows[n].state == Emitted <==> n in IdSet(nodes)
    ensures ReadsTheEmitted(rows, results)
  {
    forall n
      ensures n in IdSet(nodes) <==> exists i :: 0 <= i < |results| && results[i].nodeId == n
    {
      if n in IdSet(nodes) {
        var i :| 0 <= i < |nodes| && nodes[i].nodeId == n;
        assert results[i].nodeId == n;
      }
    }
  }

  lemma EmittedAreReported(t: Oracle, pid: string, rows: Rows, log: Log)
    requires ProgramOk(pid, rows)
    ensures ReadsTheEmitted(rows, ReadAll(t, log, EmittedNodes(rows)).results)
  {
    var nodes, results := EmittedNodes(rows), ReadAll(t, log, EmittedNodes(rows)).results;
    EmittedAreRead(pid, rows);
    ReadsInOrder(t, log, nodes);
    forall i | 0 <= i < |nodes|
      ensures nodes[i].row.issueRef == Some(results[i].issueRef)
    {
      assert RowOk(rows[nodes[i].nodeId]);
    }
    ListedAreRead(rows, nodes, results);
  }

  lemma DoneIdsSnoc(init: seq<ReadResult>, last: ReadResult)
    requires forall i :: 0 <= i < |init| ==> init[i].nodeId != last.nodeId
    ensures |DoneIds(init + [last])| == |DoneIds(init)| + (if last.answer == IssueClosed then 1 else 0)
  {
    var results := init + [last];
    assert results[|init|] == last && forall i :: 0 <= i < |init| ==> results[i] == init[i];
    assert DoneIds(results) == DoneIds(init) + (if last.answer == IssueClosed then {last.nodeId} else {});
  }

  lemma {:induction false} ClosedAreCounted(results: seq<ReadResult>)
    requires forall i, j :: 0 <= i < j < |results| ==> results[i].nodeId != results[j].nodeId
    ensures Closed(results) == |DoneIds(results)|
  {
    if results != [] {
      var init, last := results[..|results| - 1], results[|results| - 1];
      assert results == init + [last];
      ClosedAreCounted(init);
      DoneIdsSnoc(init, last);
    }
  }

  lemma ReconcileUnfolds(t: Oracle, cfg: Config, w: World, pid: string, flag: bool)
    requires |pid| <= 256 && pid in w.ledger && cfg.tracker.Some? && ProgramOk(pid, w.ledger[pid].rows)
    ensures
      var run := ReadAll(t, w.log, EmittedNodes(w.ledger[pid].rows));
      var moved := ApplyAdvances(w.ledger[pid].rows, run.results);
      && moved.Some? && Reconciled(w.ledger[pid].rows, run.results, moved.value)
      && ReconcileOp(t, cfg, w, pid, flag).Ok?
      && var (after, report) := ReconcileOp(t, cfg, w, pid, flag).value;
         && after == World(if flag then SetRows(w.ledger, pid, moved.value) else w.ledger, run.log)
         && report.results == run.results && report.advanced == (if flag then Closed(run.results) else 0)
         && report.exit == if exists r :: r in run.results && r.answer == ReadFailed then 1 else 0
  {
    ReconcileKeepsProgram(t, pid, w.ledger[pid].rows, w.log);
  }

  /** One program's rows differ at most, and there exactly the nodes in `closed` moved to done, keeping their refs. */
  ghost predicate OnlyClosed(before: Ledger, after: Ledger, pid: string, closed: set<string>)
    requires pid in before
  {
    && after.Keys == before.Keys && after[pid].goal == before[pid].goal
    && (forall q :: q in before && q != pid ==> after[q] == before[q])
    && after[pid].rows.Keys == before[pid].rows.Keys
    && forall n :: n in before[pid].rows ==>
         var row := before[pid].rows[n]; after[pid].rows[n] == if n in closed then row.(state := Done) else row
  }

  lemma ClosedAreMoved(before: Ledger, pid: string, results: seq<ReadResult>, moved: Rows)
    requires pid in before && Reconciled(before[pid].rows, results, moved)
    ensures OnlyClosed(before, SetRows(before, pid, moved), pid, DoneIds(results))
    ensures OnlyClosed(before, before, pid, {})
  {}

  /**
   * A reconcile reads each emitted node once, by ascending id; only with the flag it moves the nodes read as closed,
   * and no others, to done; it counts those, and exits 1 exactly when some read failed.
   */
  ghost predicate ReconcileFits(w: World, pid: string, flag: bool, after: World, report: ReconcileReport)
    requires pid in w.ledger
  {
    var closed := if flag then DoneIds(report.results) else {};
    && ReadsTheEmitted(w.ledger[pid].rows, report.results) && after.log == w.log + ReadCalls(report.results)
    && OnlyClosed(w.ledger, after.ledger, pid, closed) && report.advanced == |closed|
    && (report.exit == if exists r :: r in report.results && r.answer == ReadFailed then 1 else 0)
  }

  lemma ReconcileReports(t: Oracle, cfg: Config, w: World, pid: string, flag: bool)
    requires |pid| <= 256 && pid in w.ledger && cfg.tracker.Some? && ProgramOk(pid, w.ledger[pid].rows)
    ensures ReconcileOp(t, cfg, w, pid, flag).Ok?
    ensures
      var (after, report) := ReconcileOp(t, cfg, w, pid, flag).value;
      ReconcileFits(w, pid, flag, after, report)
  {
    var rows := w.ledger[pid].rows;
    var run := ReadAll(t, w.log, EmittedNodes(rows));
    ReconcileUnfolds(t, cfg, w, pid, flag);
    EmittedAreReported(t, pid, rows, w.log);
    ReadsAreTheCalls(t, w.log, EmittedNodes(rows));
    ReadsAreEmitted(t, pid, rows, w.log);
    ClosedAreCounted(run.results);
    ClosedAreMoved(w.ledger, pid, run.results, ApplyAdvances(rows, run.results).value);
  }

  /** A reconcile of a well-formed ledger is refused exactly for its id or for want of a tracker block. */
  lemma ReconcileIsExact(t: Oracle, cfg: Config, w: World, pid: string, flag: bool)
    requires LedgerOk(w.ledger)
    ensures ReconcileOp(t, cfg, w, pid, flag).Ok? <==> |pid| <= 256 && pid in w.ledger && cfg.tracker.Some?
    ensures ReconcileOp(t, cfg, w, pid, flag).Ok? ==>
      var (after, report) := ReconcileOp(t, cfg, w, pid, flag).value;
      ReconcileFits(w, pid, flag, after, report)
  {
    if |pid| <= 256 && pid in w.ledger && cfg.tracker.Some? {
      ReconcileReports(t, cfg, w, pid, flag);
    }
  }

  /** Whatever the rows, reconcile skips a node whose ref is missing or empty, and no other. */
  lemma {:induction false} RefsAreRead(nodes: seq<NodeRow>)
    ensures forall n :: n in WithRef(nodes) <==> n in nodes && n.row.issueRef.Some? && n.row.issueRef.value != ""
  {
    if nodes != [] {
      var init, last := nodes[..|nodes| - 1], nodes[|nodes| - 1];
      RefsAreRead(init);
      assert nodes == init + [last];
    }
  }

  // ----- the store's two inserts -----

  /** Every old row stays, and each input has become a planned row without a ref. */
  predicate Gains(before: Rows, inputs: seq<NodeInput>, after: Rows) {
    && (forall n :: n in before ==> n in after && after[n] == before[n])
    && (forall n :: n in after ==> n in before || Names(inputs, n))
    && forall i :: 0 <= i < |inputs| ==>
         && inputs[i].nodeId in after
         && after[inputs[i].nodeId] ==
              Row(inputs[i].parentId, inputs[i].goal, inputs[i].labels, inputs[i].task, Planned, None)
  }

  predicate Names(inputs: seq<NodeInput>, n: string) {
    exists i :: 0 <= i < |inputs| && inputs[i].nodeId == n
  }

  /** An id is stored already or comes twice. */
  predicate Clash(before: Rows, inputs: seq<NodeInput>) {
    || (exists i :: 0 <= i < |inputs| && inputs[i].nodeId in before)
    || (exists i, j :: 0 <= i < j < |inputs| && inputs[i].nodeId == inputs[j].nodeId)
  }

  /** A parent is neither stored nor in the batch. */
  predicate Orphan(before: Rows, inputs: seq<NodeInput>) {
    exists i :: 0 <= i < |inputs| && inputs[i].parentId.Some?
      && inputs[i].parentId.value !in before && !Names(inputs, inputs[i].parentId.value)
  }

  lemma InsertInWords(before: Rows, inputs: seq<NodeInput>)
    ensures InsertAll(before, inputs).None? <==> Clash(before, inputs)
    ensures InsertAll(before, inputs).Some? ==> Gains(before, inputs, InsertAll(before, inputs).value)
  {
    InsertIsExact(before, inputs);
    assert NewIds(inputs) !! before.Keys <==> !exists i :: 0 <= i < |inputs| && inputs[i].nodeId in before;
  }

  lemma OrphanInWords(before: Rows, inputs: seq<NodeInput>)
    ensures HasOrphan(before, inputs) <==> Orphan(before, inputs)
  {
    forall n
      ensures n in NewIds(inputs) <==> Names(inputs, n)
    {}
  }

  /** Adding nodes: an unknown program, an unresolved parent and a clash of ids are refused, in this order. */
  lemma AddNodesInWords(ledger: Ledger, pid: string, inputs: seq<NodeInput>)
    ensures
      var r := AddNodes(ledger, pid, inputs);
      if pid !in ledger then r == Err(UnknownProgram)
      else if Orphan(ledger[pid].rows, inputs) then r == Err(UnknownNode)
      else if Clash(ledger[pid].rows, inputs) then r == Err(DuplicateNode)
      else
        && r.Ok? && pid in r.value && r.value == ledger[pid := r.value[pid]]
        && r.value[pid].goal == ledger[pid].goal && Gains(ledger[pid].rows, inputs, r.value[pid].rows)
  {
    if pid in ledger {
      OrphanInWords(ledger[pid].rows, inputs);
      InsertInWords(ledger[pid].rows, inputs);
    }
  }

  /** Creating a program: a stored id and a clash of node ids are refused. */
  lemma CreateProgramInWords(ledger: Ledger, pid: string, goal: string, inputs: seq<NodeInput>)
    ensures
      var r := CreateProgram(ledger, pid, goal, inputs);
      if pid in ledger then r == Err(DuplicateProgram)
      else if Clash(map[], inputs) then r == Err(DuplicateNode)
      else
        && r.Ok? && pid in r.value && r.value == ledger[pid := r.value[pid]]
        && r.value[pid].goal == goal && Gains(map[], inputs, r.value[pid].rows)
  {
    InsertInWords(map[], inputs);
  }

  // ----- create and decompose-node -----

  /** The row that stores the `k`-th story of a decomposition of `parent`. */
  predicate StoresStory(rows: Rows, parent: TaskContract, s: StorySpec, k: nat) {
    var id := Numbered(parent.id, k);
    && id in rows && TellsStory(parent, s, k, rows[id].task)
    && rows[id].parentId == Some(parent.id) && rows[id].goal == s.goal
    && rows[id].labels == LabelsFor(MeaningOf(rows[id].task.constraints))
    && rows[id].state == Planned && rows[id].issueRef == None
  }

  /** The `k`-th story has its row. */
  predicate StoresKth(rows: Rows, parent: TaskContract, stories: seq<StorySpec>, k: nat) {
    1 <= k <= |stories| && StoresStory(rows, parent, stories[k - 1], k)
  }

  /** `after` is `before` with one new row a story, and nothing else. */
  ghost predicate StoriesStored(before: Rows, after: Rows, parent: TaskContract, stories: seq<StorySpec>) {
    && (forall n :: n in before ==> n in after && after[n] == before[n])
    && (forall k: nat :: 1 <= k <= |stories| ==> StoresKth(after, parent, stories, k))
    && forall n :: n in after && n !in before ==> exists k: nat :: 1 <= k <= |stories| && n == Numbered(parent.id, k)
  }

  /** The `k`-th input is about the `k`-th story. */
  predicate InputTells(parent: TaskContract, stories: seq<StorySpec>, inputs: seq<NodeInput>, k: nat) {
    && 1 <= k <= |stories| && k <= |inputs|
    && var input := inputs[k - 1];
       && TellsStory(parent, stories[k - 1], k, input.task)
       && input == NodeInput(Numbered(parent.id, k), Some(parent.id), stories[k - 1].goal,
                             LabelsFor(MeaningOf(input.task.constraints)), input.task)
  }

  lemma InputAt(p: string, children: seq<TaskContract>, i: nat)
    requires AllLabelled(children) && i < |children|
    ensures ProgramLabels(children[i].constraints) == Some(LabelsFor(MeaningOf(children[i].constraints)))
    ensures ChildInputs(p, children)[i] ==
      NodeInput(children[i].id, Some(p), children[i].goal, LabelsFor(MeaningOf(children[i].constraints)), children[i])
  {
    LabelsAreExact(children[i].constraints);
  }

  lemma ToldInput(parent: TaskContract, stories: seq<StorySpec>, inputs: seq<NodeInput>, k: nat, child: TaskContract)
    requires 1 <= k <= |stories| && k <= |inputs| && TellsStory(parent, stories[k - 1], k, child)
    requires inputs[k - 1] ==
      NodeInput(child.id, Some(parent.id), child.goal, LabelsFor(MeaningOf(child.constraints)), child)
    ensures InputTells(parent, stories, inputs, k)
  {}

  lemma InputOfStory(parent: TaskContract, stories: seq<StorySpec>, children: seq<TaskContract>, k: nat)
    requires |children| == |stories| && AllLabelled(children) && 1 <= k <= |stories|
    requires TellsStory(parent, stories[k - 1], k, children[k - 1])
    ensures InputTells(parent, stories, ChildInputs(parent.id, children), k)
  {
    InputAt(parent.id, children, k - 1);
    ToldInput(parent, stories, ChildInputs(parent.id, children), k, children[k - 1]);
  }

  lemma StoryIsStored(parent: TaskContract, s: StorySpec, k: nat, child: TaskContract, after: Rows)
    requires TellsStory(parent, s, k, child) && child.id in after
    requires after[child.id] ==
      NewRow(NodeInput(child.id, Some(parent.id), s.goal, LabelsFor(MeaningOf(child.constraints)), child))
    ensures StoresStory(after, parent, s, k)
  {}

  lemma KthIsStored(parent: TaskContract, stories: seq<StorySpec>, inputs: seq<NodeInput>, after: Rows, k: nat)
    requires InputTells(parent, stories, inputs, k)
    requires inputs[k - 1].nodeId in after && after[inputs[k - 1].nodeId] == NewRow(inputs[k - 1])
    ensures StoresKth(after, parent, stories, k)
  {
    StoryIsStored(parent, stories[k - 1], k, inputs[k - 1].task, after);
  }

  lemma InsertedStories(parent: TaskContract, stories: seq<StorySpec>, inputs: seq<NodeInput>, rows: Rows, after: Rows)
    requires Inserted(rows, inputs, after) && |inputs| == |stories|
    requires forall k: nat :: 1 <= k <= |stories| ==> InputTells(parent, stories, inputs, k)
    ensures StoriesStored(rows, after, parent, stories)
  {
    forall k: nat | 1 <= k <= |stories|
      ensures StoresKth(after, parent, stories, k)
    {
      KthIsStored(parent, stories, inputs, after, k);
    }
    forall n | n in after && n !in rows
      ensures exists k: nat :: 1 <= k <= |stories| && n == Numbered(parent.id, k)
    {
      var i := IndexOfNew(inputs, n);
      assert InputTells(parent, stories, inputs, i + 1);
      assert n == Numbered(parent.id, i + 1);
    }
  }

  lemma ToldAt(parent: TaskContract, stories: seq<StorySpec>, children: seq<TaskContract>, k: nat)
    requires DecomposeGoal(parent, stories) == Ok(children) && AllLabelled(children) && 1 <= k <= |stories|
    ensures InputTells(parent, stories, ChildInputs(parent.id, children), k)
  {
    ChildrenTellTheirStories(parent, stories, children, k);
    InputOfStory(parent, stories, children, k);
  }

  lemma InsertStoresStories(parent: TaskContract, stories: seq<StorySpec>, children: seq<TaskContract>, rows: Rows,
                            inputs: seq<NodeInput>, after: Rows)
    requires DecomposeGoal(parent, stories) == Ok(children) && |children| == |stories| && AllLabelled(children)
    requires inputs == ChildInputs(parent.id, children) && Inserted(rows, inputs, after)
    ensures StoriesStored(rows, after, parent, stories)
  {
    forall k: nat | 1 <= k <= |stories|
      ensures InputTells(parent, stories, inputs, k)
    {
      ToldAt(parent, stories, children, k);
    }
    InsertedStories(parent, stories, inputs, rows, after);
  }

  lemma IndexOfNew(inputs: seq<NodeInput>, n: string) returns (i: nat)
    requires n in NewIds(inputs)
    ensures i < |inputs| && inputs[i].nodeId == n
  {
    i :| 0 <= i < |inputs| && inputs[i].nodeId == n;
  }

  /** The contract of a new program's root, and its row. */
  function RootContract(cfg: Config, pid: string, goal: string): TaskContract {
    TaskContract(pid, None, goal, [], cfg.budgets, [], [], Suggest, cfg.overlay)
  }

  function RootOf(cfg: Config, pid: string, goal: string): Rows {
    map[pid := Row(None, goal, [], RootContract(cfg, pid, goal), Planned, None)]
  }

  /**
   * A created program is its root and one planned row a story, each telling its story, with the labels it stands for.
   */
  lemma CreateStoresStories(ledger: Ledger, cfg: Config, pid: string, goal: string, stories: seq<StorySpec>)
    requires ValidConfig(cfg) && CreateOp(ledger, cfg, pid, goal, stories).Ok?
    ensures
      var after := CreateOp(ledger, cfg, pid, goal, stories).value;
      && pid !in ledger && pid in after && after == ledger[pid := after[pid]] && after[pid].goal == goal
      && StoriesStored(RootOf(cfg, pid, goal), after[pid].rows, RootContract(cfg, pid, goal), stories)
  {
    var root := RootContract(cfg, pid, goal);
    var children := CreatedChildren(root, stories);
    CreateIsExact(ledger, cfg, pid, goal, stories);
    DecomposeIsExact(root, stories);
    InsertIsExact(RootRows(root), ChildInputs(pid, children));
    InsertStoresStories(root, stories, children, RootRows(root), ChildInputs(pid, children),
                        InsertAll(RootRows(root), ChildInputs(pid, children)).value);
  }

  lemma GrownStoresStories(program: Program, nid: string, stories: seq<StorySpec>, children: seq<TaskContract>)
    requires nid in program.rows && program.rows[nid].task.id == nid
    requires DecomposeGoal(program.rows[nid].task, stories) == Ok(children) && AllLabelled(children)
    requires InsertAll(program.rows, ChildInputs(nid, children)).Some?
    ensures Grown(program, nid, children).goal == program.goal
    ensures StoriesStored(program.rows, Grown(program, nid, children).rows, program.rows[nid].task, stories)
  {
    InsertIsExact(program.rows, ChildInputs(nid, children));
    DecomposeIsExact(program.rows[nid].task, stories);
    InsertStoresStories(program.rows[nid].task, stories, children, program.rows, ChildInputs(nid, children),
                        InsertAll(program.rows, ChildInputs(nid, children)).value);
  }

  lemma StoredUnderItsId(ledger: Ledger, pid: string, nid: string)
    requires LedgerOk(ledger) && pid in ledger && nid in ledger[pid].rows
    ensures ledger[pid].rows[nid].task.id == nid
  {
    assert Skeleton(ledger[pid].rows)[nid].task.id == nid;
  }

  /** A decomposed node keeps its program and gains one planned row a story, each telling its story. */
  lemma DecomposeStoresStories(ledger: Ledger, pid: string, nid: string, stories: seq<StorySpec>)
    requires LedgerOk(ledger) && DecomposeNodeOp(ledger, pid, nid, stories).Ok?
    ensures
      var after := DecomposeNodeOp(ledger, pid, nid, stories).value;
      && pid in ledger && nid in ledger[pid].rows && pid in after && after == ledger[pid := after[pid]]
      && after[pid].goal == ledger[pid].goal
      && StoriesStored(ledger[pid].rows, after[pid].rows, ledger[pid].rows[nid].task, stories)
  {
    DecomposeNodeIsExact(ledger, pid, nid, stories);
    StoredUnderItsId(ledger, pid, nid);
    DecomposeIsExact(ledger[pid].rows[nid].task, stories);
    GrownStoresStories(ledger[pid], nid, stories, ChildrenOf(ledger[pid].rows[nid], stories));
  }

  /** A refused create leaves the first of its faults as the error. */
  lemma CreateRefusal(ledger: Ledger, cfg: Config, pid: string, goal: string, stories: seq<StorySpec>)
    requires ValidConfig(cfg) && CreateOp(ledger, cfg, pid, goal, stories).Err?
    ensures
      var e := CreateOp(ledger, cfg, pid, goal, stories).error;
      var made := DecomposeGoal(RootContract(cfg, pid, goal), stories);
      if |pid| > 256 then e == InputRejected
      else if pid == "" || goal == "" then e == SchemaRejected
      else if made.Err? then e == NotDecomposable(made.error)
      else if exists c :: c in made.value && ProgramLabels(c.constraints).None? then e == UnsafeLabel
      else pid in ledger && e == DuplicateProgram
  {
    CreateIsExact(ledger, cfg, pid, goal, stories);
    DecomposeIsExact(RootContract(cfg, pid, goal), stories);
  }

  lemma StoreRefusal(ledger: Ledger, pid: string, nid: string, children: seq<TaskContract>)
    requires pid in ledger && nid in ledger[pid].rows && StoreChildren(ledger, pid, nid, children).Err?
    ensures StoreChildren(ledger, pid, nid, children).error ==
      if AllLabelled(children) then DuplicateNode else UnsafeLabel
  {
    if AllLabelled(children) { NoOrphans(ledger[pid].rows, nid, children); }
  }

  lemma LabelledInWords(children: seq<TaskContract>)
    ensures AllLabelled(children) <==> !exists c :: c in children && ProgramLabels(c.constraints).None?
  {
    if !AllLabelled(children) {
      var i :| 0 <= i < |children| && ProgramLabels(children[i].constraints).None?;
      assert children[i] in children;
    }
  }

  /** A refused decompose-node likewise; a node that has children already collides with its first one. */
  lemma DecomposeRefusal(ledger: Ledger, pid: string, nid: string, stories: seq<StorySpec>)
    requires LedgerOk(ledger) && DecomposeNodeOp(ledger, pid, nid, stories).Err?
    ensures
      var e := DecomposeNodeOp(ledger, pid, nid, stories).error;
      if |pid| > 256 || |nid| > 256 || pid !in ledger || nid !in ledger[pid].rows then e == InputRejected
      else
        var made := DecomposeGoal(ledger[pid].rows[nid].task, stories);
        if made.Err? then e == NotDecomposable(made.error)
        else if exists c :: c in made.value && ProgramLabels(c.constraints).None? then e == UnsafeLabel
        else e == DuplicateNode && stories != [] && HasChildren(ledger[pid].rows, nid)
  {
    if |pid| <= 256 && |nid| <= 256 && pid in ledger && nid in ledger[pid].rows {
      var made := DecomposeGoal(ledger[pid].rows[nid].task, stories);
      if made.Ok? {
        LabelledInWords(made.value);
        StoreRefusal(ledger, pid, nid, made.value);
        if AllLabelled(made.value) { Collides(ledger, pid, nid, stories); }
      }
    }
  }

  predicate HasChildren(rows: Rows, nid: string) {
    exists n :: n in rows && rows[n].parentId == Some(nid)
  }

  lemma Collides(ledger: Ledger, pid: string, nid: string, stories: seq<StorySpec>)
    requires LedgerOk(ledger) && DecomposeNodeOp(ledger, pid, nid, stories).Err?
    requires |pid| <= 256 && |nid| <= 256 && pid in ledger && nid in ledger[pid].rows
    requires
      var made := DecomposeGoal(ledger[pid].rows[nid].task, stories);
      made.Ok? && AllLabelled(made.value)
    ensures stories != [] && HasChildren(ledger[pid].rows, nid)
  {
    DecomposeNodeIsExact(ledger, pid, nid, stories);
    DecomposeIsExact(ledger[pid].rows[nid].task, stories);
    var kids := LedgerTree.Kids(Skeleton(ledger[pid].rows), nid);
    var n :| n in kids;
    assert ledger[pid].rows[n].parentId == Some(nid);
  }

  // ----- advance -----

  predicate Letter(c: char) { 'A' <= c <= 'Z' || 'a' <= c <= 'z' }

  /** A URL scheme: a letter, then letters, digits, `+`, `.` and `-` (section 3.1 of RFC 3986). */
  predicate SchemeText(s: string) {
    && s != "" && Letter(s[0])
    && forall i :: 0 <= i < |s| ==> Letter(s[i]) || '0' <= s[i] <= '9' || s[i] == '+' || s[i] == '.' || s[i] == '-'
  }

  /** The word `https` in any letter case. */
  predicate HttpsText(s: string) {
    && |s| == 5 && s[0] in "hH" && s[1] in "tT" && s[2] in "tT" && s[3] in "pP" && s[4] in "sS"
  }

  /** At most 512 characters, none a control character, and no URL but an https one. */
  ghost predicate RefText(ref: string) {
    && |ref| <= 512 && (forall i :: 0 <= i < |ref| ==> ref[i] > '\U{001f}' && ref[i] != '\U{007f}')
    && forall scheme, host :: ref == scheme + "://" + host && SchemeText(scheme) ==> HttpsText(scheme)
  }

  lemma RefIsText(ref: string)
    ensures RefShapeOk(ref) <==> RefText(ref)
  {
    if RefShapeOk(ref) {
      forall scheme, host | ref == scheme + "://" + host && SchemeText(scheme) { SchemeIsHttps(ref, scheme, host); }
    }
    if RefText(ref) && IsUrl(ref) { UrlHasScheme(ref); }
  }

  lemma SchemeIsHttps(ref: string, scheme: string, host: string)
    requires RefShapeOk(ref) && ref == scheme + "://" + host && SchemeText(scheme)
    ensures HttpsText(scheme)
  {
    assert ref == scheme + ("://" + host);
    SchemeRunIsMaximal(scheme, "://" + host);
    assert ref[|scheme|..] == "://" + host;
    assert IsUrl(ref) && IsHttps(ref);
    assert ref[5..8][0] == ref[5] == ':' && ref[|scheme|] == ':';
    assert forall i :: 0 <= i < 5 ==> ref[i] != ':';
    assert forall i :: 0 <= i < |scheme| ==> ref[i] == scheme[i] != ':';
  }

  lemma {:induction false} RunIsScheme(s: string)
    ensures forall i :: 0 <= i < SchemeRun(s) ==> IsSchemeChar(s[i])
  {
    if s != "" && IsSchemeChar(s[0]) {
      RunIsScheme(s[1..]);
      assert forall i :: 1 <= i < SchemeRun(s) ==> s[i] == s[1..][i - 1];
    }
  }

  lemma UrlHasScheme(ref: string)
    requires RefText(ref) && IsUrl(ref)
    ensures IsHttps(ref)
  {
    var n := SchemeRun(ref);
    var scheme, host := ref[..n], ref[n + 3..];
    RunIsScheme(ref);
    assert n > 0;
    assert ref[n..][..3] == "://" && ref == scheme + "://" + host;
    assert SchemeText(scheme);
  }

  /** The ref an advance was given, trimmed; blank when there was none. */
  function GivenRef(issueRef: Option<string>): string {
    match issueRef case None => "" case Some(ref) => Trim(ref)
  }

  /** One rung: from planned only to emitted and only with a ref, from emitted only to done; any ref must be sound. */
  ghost predicate MayMove(from: Rung, to: Rung, ref: string) {
    && ((from == Planned && to == Emitted && ref != "") || (from == Emitted && to == Done))
    && (ref != "" ==> RefText(ref))
  }

  lemma LegalInWords(from: Rung, to: Rung, issueRef: Option<string>)
    ensures CleanRef(issueRef) == GivenRef(issueRef)
    ensures LegalMove(from, to, CleanRef(issueRef)) <==> MayMove(from, to, GivenRef(issueRef))
  {
    CleanRefIsTrimmed(issueRef);
    RefIsText(GivenRef(issueRef));
  }

  /**
   * An advance succeeds exactly on a stored node, one rung up and with a sound ref; it then changes that row's rung,
   * and its ref if one was given, and nothing else. Each refusal has its own error.
   */
  lemma AdvanceInWords(ledger: Ledger, pid: string, nid: string, to: Rung, issueRef: Option<string>)
    ensures
      var r, ref := AdvanceOp(ledger, pid, nid, to, issueRef), GivenRef(issueRef);
      if to == Planned || |pid| > 256 || |nid| > 256 then r == Err(InputRejected)
      else if pid !in ledger || nid !in ledger[pid].rows then r == Err(UnknownNode)
      else
        var row := ledger[pid].rows[nid];
        if !MayMove(row.state, to, ref) then r == Err(InvalidTransition)
        else
          var moved := row.(state := to, issueRef := if ref == "" then row.issueRef else Some(ref));
          r == Ok(ledger[pid := Program(ledger[pid].goal, ledger[pid].rows[nid := moved])])
  {
    CleanRefIsTrimmed(issueRef);
    if pid in ledger && nid in ledger[pid].rows {
      LegalInWords(ledger[pid].rows[nid].state, to, issueRef);
      MoveIsExact(ledger[pid].rows[nid], to, CleanRef(issueRef));
    }
  }
}
