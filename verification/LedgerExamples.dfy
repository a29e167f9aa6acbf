/** Runs at concrete inputs, for what the ledger's commands do not promise. */
module LedgerExamples {
  import opened Prelude
  import opened Text
  import opened ConstraintTags
  import opened Scrum
  import opened LedgerTree
  import opened LedgerModel
  import opened LedgerCommands
  import opened ParentsFirst
  import opened Listing
  import opened Tracker
  import opened Emission
  import opened EmissionLaws
  import opened EmitCommand
  import opened CommandLaws
  import opened LedgerRuns
  import opened LinkLaws
  import opened Addressing

  // ----- stories that carry nothing optional -----

  predicate PlainStory(s: StorySpec) {
    && s.goal != "" && s.constraints.None? && PositiveBudget(s.budget) && s.evidence.None? && s.definitionOfDone.None?
    && s.track.None? && s.sprint.None?
  }

  /** A contract that holds program tags only, one altitude at most. */
  predicate PlainTask(t: TaskContract) {
    ValidTask(t) && WellTagged(t.constraints) && Free(t.constraints) == []
  }

  lemma AltitudeReadsBack(a: Altitude)
    ensures OneAltitude([AltitudeName(a)])
  {}

  lemma PlainIsTagged(s: StorySpec)
    requires PlainStory(s)
    ensures WellTagged(ChildConstraints([], s)) && Free(ChildConstraints([], s)) == []
  {
    PlainValues(s, AltitudeKey);
    PlainValues(s, TrackKey);
    PlainValues(s, SprintKey);
    AltitudeReadsBack(s.altitude);
  }

  lemma PlainTags(s: StorySpec)
    requires PlainStory(s)
    ensures
      var tags := MeaningOf(ChildConstraints([], s));
      tags.altitude == Some(s.altitude) && tags.track == None && tags.sprint == None
  {
    PlainIsTagged(s);
    ChildAltitudeTag([], s);
    PlainValues(s, TrackKey);
    PlainValues(s, SprintKey);
  }

  lemma PlainConstraints(s: StorySpec)
    requires PlainStory(s)
    ensures
      var constraints := ChildConstraints([], s);
      && WellTagged(constraints) && Free(constraints) == [] && MeaningOf(constraints).altitude == Some(s.altitude)
      && ProgramLabels(constraints).Some? && "" !in constraints
  {
    PlainIsTagged(s);
    PlainTags(s);
    LabelsOfAChild([], s);
    TagsAreNotEmpty(s);
  }

  lemma TagsAreNotEmpty(s: StorySpec)
    requires PlainStory(s)
    ensures "" !in ChildConstraints([], s)
  {
    var altitude := ConstraintTag(AltitudeKey, AltitudeName(s.altitude));
    var assign := ConstraintTag(AssignKey, "agent." + AssigneeName(s.assignTo));
    assert ChildConstraints([], s) == [altitude, assign];
    assert |altitude| > 0 && |assign| > 0;
  }

  lemma TwoTags(a: string, b: string, key: TagKey)
    requires KeyOf(a) == Some(AltitudeKey) && KeyOf(b) == Some(AssignKey)
    ensures Free([a, b]) == []
    ensures Values([a, b], key) ==
      if key == AltitudeKey then [ValueOf(a)] else if key == AssignKey then [ValueOf(b)] else []
  {
    ValuesOfSnoc([], a, key);
    ValuesOfSnoc([a], b, key);
    assert [] + [a] == [a] && [a] + [b] == [a, b];
  }

  lemma PlainValues(s: StorySpec, key: TagKey)
    requires PlainStory(s)
    ensures Values(ChildConstraints([], s), key) ==
      if key == AltitudeKey then [AltitudeName(s.altitude)]
      else if key == AssignKey then ["agent." + AssigneeName(s.assignTo)]
      else []
    ensures Free(ChildConstraints([], s)) == []
  {
    TagReadsBack(AltitudeKey, AltitudeName(s.altitude));
    TagReadsBack(AssignKey, "agent." + AssigneeName(s.assignTo));
    PlainPair(s);
    TwoTags(ConstraintTag(AltitudeKey, AltitudeName(s.altitude)),
            ConstraintTag(AssignKey, "agent." + AssigneeName(s.assignTo)), key);
  }

  lemma PlainPair(s: StorySpec)
    requires PlainStory(s)
    ensures ChildConstraints([], s) ==
      [ConstraintTag(AltitudeKey, AltitudeName(s.altitude)),
       ConstraintTag(AssignKey, "agent." + AssigneeName(s.assignTo))]
  {}

  predicate Fits(s: StorySpec, budget: Budget) {
    s.budget.tokens <= budget.tokens && s.budget.usd <= budget.usd && s.budget.wallClockMin <= budget.wallClockMin
  }

  /** The one child of a parent without free-form constraints. */
  function OnlyChild(parent: TaskContract, s: StorySpec): TaskContract {
    ToChild(parent, [], s, 0)
  }

  /** Its row. */
  function ChildRow(parent: TaskContract, s: StorySpec): Row {
    var labels := ProgramLabels(ChildConstraints([], s));
    Row(Some(parent.id), s.goal, if labels.Some? then labels.value else [], OnlyChild(parent, s), Planned, None)
  }

  lemma PlainIsAcceptable(parent: TaskContract, s: StorySpec)
    requires PlainTask(parent) && PlainStory(s) && Fits(s, parent.budget)
    requires
      var altitude := MeaningOf(parent.constraints).altitude;
      altitude != Some(Task) && RungBelow(altitude, s.altitude)
    ensures Acceptable(parent, [s]) && ToChildren(parent, Free(parent.constraints), [s]) == [OnlyChild(parent, s)]
  {
    PlainIsTagged(s);
    PlainFits(parent, s);
    OneStory(MeaningOf(parent.constraints).altitude, s);
  }

  lemma OneStory(altitude: Option<Altitude>, s: StorySpec)
    requires PlainStory(s) && altitude != Some(Task) && RungBelow(altitude, s.altitude)
    ensures AllValid([s]) && AllDescend(altitude, [s])
  {}

  lemma PlainFits(parent: TaskContract, s: StorySpec)
    requires Fits(s, parent.budget)
    ensures WithinBudget(parent, [s])
  {
    assert [s][..0] == [];
    forall d: Dimension
      ensures ChildSum([s], d) == Amount(s.budget, d)
    {
      assert ChildSum([], d) == 0.0;
    }
  }

  lemma PlainChild(parent: TaskContract, s: StorySpec)
    requires PlainTask(parent) && PlainStory(s)
    ensures PlainTask(OnlyChild(parent, s)) && AllLabelled([OnlyChild(parent, s)])
    ensures MeaningOf(OnlyChild(parent, s).constraints).altitude == Some(s.altitude)
  {
    PlainConstraints(s);
    assert OnlyChild(parent, s).id != "";
  }

  lemma OneInput(rows: Rows, n: NodeInput)
    requires n.nodeId !in rows
    ensures InsertAll(rows, [n]) == Some(rows[n.nodeId := NewRow(n)])
  {
    assert [n][..0] == [];
  }

  lemma OnlyInput(parent: TaskContract, s: StorySpec)
    requires AllLabelled([OnlyChild(parent, s)])
    ensures ChildInputs(parent.id, [OnlyChild(parent, s)]) ==
      [NodeInput(OnlyChild(parent, s).id, Some(parent.id), s.goal, ChildRow(parent, s).labels, OnlyChild(parent, s))]
  {}

  lemma InsertOne(rows: Rows, parent: TaskContract, s: StorySpec)
    requires PlainTask(parent) && PlainStory(s) && OnlyChild(parent, s).id !in rows
    ensures AllLabelled([OnlyChild(parent, s)])
    ensures
      var after := rows[OnlyChild(parent, s).id := ChildRow(parent, s)];
      InsertAll(rows, ChildInputs(parent.id, [OnlyChild(parent, s)])) == Some(after)
  {
    PlainChild(parent, s);
    OnlyInput(parent, s);
    OneInput(rows, ChildInputs(parent.id, [OnlyChild(parent, s)])[0]);
  }

  lemma CreateOne(cfg: Config, pid: string, goal: string, s: StorySpec)
    requires ValidConfig(cfg) && 0 < |pid| <= ID_MAX && goal != "" && PlainStory(s) && Fits(s, cfg.budgets)
    ensures
      var root := ProgramParent(cfg, pid, goal);
      && PlainTask(root) && OnlyChild(root, s).id == pid + ".1" && OnlyChild(root, s).id != pid
      && var rows := RootRows(root)[pid + ".1" := ChildRow(root, s)];
         CreateOp(map[], cfg, pid, goal, [s]) == Ok(map[pid := Program(goal, rows)])
  {
    var root := ProgramParent(cfg, pid, goal);
    RootIsPlain(cfg, pid, goal);
    FirstChildId(root, s);
    PlainIsAcceptable(root, s);
    InsertOne(RootRows(root), root, s);
    CreateIsExact(map[], cfg, pid, goal, [s]);
  }

  lemma RootIsPlain(cfg: Config, pid: string, goal: string)
    requires ValidConfig(cfg) && pid != "" && goal != ""
    ensures PlainTask(ProgramParent(cfg, pid, goal)) && MeaningOf([]).altitude.None?
  {
    assert forall key :: Values([], key) == [];
  }

  lemma FirstChildId(parent: TaskContract, s: StorySpec)
    ensures OnlyChild(parent, s).id == parent.id + ".1" && |OnlyChild(parent, s).id| == |parent.id| + 2
  {
    assert Decimal(1) == "1";
    assert parent.id + "." + "1" == parent.id + ".1";
  }

  lemma DecomposeOne(ledger: Ledger, pid: string, nid: string, s: StorySpec)
    requires LedgerOk(ledger) && |pid| <= ID_MAX && |nid| <= ID_MAX && pid in ledger && nid in ledger[pid].rows
    requires forall n :: n in ledger[pid].rows ==> ledger[pid].rows[n].parentId != Some(nid)
    requires
      var task := ledger[pid].rows[nid].task;
      var altitude := MeaningOf(task.constraints).altitude;
      && task.id == nid && PlainTask(task) && PlainStory(s) && Fits(s, task.budget)
      && altitude != Some(Task) && RungBelow(altitude, s.altitude) && nid + ".1" !in ledger[pid].rows
    ensures
      var rows := ledger[pid].rows;
      var after := rows[nid + ".1" := ChildRow(rows[nid].task, s)];
      DecomposeNodeOp(ledger, pid, nid, [s]) == Ok(ledger[pid := ledger[pid].(rows := after)])
  {
    var task := ledger[pid].rows[nid].task;
    FirstChildId(task, s);
    PlainIsAcceptable(task, s);
    PlainChild(task, s);
    InsertOne(ledger[pid].rows, task, s);
    assert Kids(Skeleton(ledger[pid].rows), nid) == {};
    DecomposeNodeIsExact(ledger, pid, nid, [s]);
  }

  // ----- a program of three levels -----

  /** A root, its one epic, the epic's one story. */
  datatype Plan = Plan(cfg: Config, pid: string, goal: string, epic: StorySpec, story: StorySpec)

  predicate PlanOk(p: Plan) {
    && ValidConfig(p.cfg) && 0 < |p.pid| <= ID_MAX - 2 && p.goal != ""
    && PlainStory(p.epic) && p.epic.altitude == Epic && Fits(p.epic, p.cfg.budgets)
    && PlainStory(p.story) && p.story.altitude == Story && Fits(p.story, p.epic.budget)
  }

  function RootTask(p: Plan): TaskContract { ProgramParent(p.cfg, p.pid, p.goal) }

  function RootRow(p: Plan): Row { NewRow(RootInput(RootTask(p))) }

  function EpicId(p: Plan): string { p.pid + ".1" }

  function EpicRow(p: Plan): Row { ChildRow(RootTask(p), p.epic) }

  function StoryId(p: Plan): string { EpicId(p) + ".1" }

  function StoryRow(p: Plan): Row { ChildRow(EpicRow(p).task, p.story) }

  function CreatedRows(p: Plan): Rows { map[p.pid := RootRow(p), EpicId(p) := EpicRow(p)] }

  function PlannedRows(p: Plan): Rows { CreatedRows(p)[StoryId(p) := StoryRow(p)] }

  function LedgerOf(p: Plan, rows: Rows): Ledger { map[p.pid := Program(p.goal, rows)] }

  function Setup(p: Plan): seq<Call> {
    [Call(p.cfg, Create(p.pid, p.goal, [p.epic])), Call(p.cfg, DecomposeNode(p.pid, EpicId(p), [p.story]))]
  }

  lemma IdsDiffer(p: Plan)
    ensures p.pid != EpicId(p) && EpicId(p) != StoryId(p) && StoryId(p) != p.pid
    ensures Less(p.pid, EpicId(p)) && Less(EpicId(p), StoryId(p)) && Less(p.pid, StoryId(p))
  {
    PrefixIsLess(p.pid, ".1");
    PrefixIsLess(EpicId(p), ".1");
    LessTransitive(p.pid, EpicId(p), StoryId(p));
    assert |p.pid| < |EpicId(p)| < |StoryId(p)|;
  }

  lemma ProgramIsCreated(p: Plan)
    requires PlanOk(p)
    ensures CreateOp(map[], p.cfg, p.pid, p.goal, [p.epic]) == Ok(LedgerOf(p, CreatedRows(p)))
  {
    CreateOne(p.cfg, p.pid, p.goal, p.epic);
    assert RootRows(RootTask(p))[EpicId(p) := EpicRow(p)] == CreatedRows(p);
  }

  lemma EpicIsPlain(p: Plan)
    requires PlanOk(p)
    ensures
      var task := EpicRow(p).task;
      && PlainTask(task) && task.id == EpicId(p) && task.budget == p.epic.budget
      && MeaningOf(task.constraints).altitude == Some(Epic)
  {
    RootIsPlain(p.cfg, p.pid, p.goal);
    FirstChildId(RootTask(p), p.epic);
    PlainChild(RootTask(p), p.epic);
  }

  /** The rows that one program holds before its one node without children is decomposed. */
  lemma GrowLeaf(pid: string, goal: string, rows: Rows, nid: string, row: Row, s: StorySpec)
    requires LedgerOk(map[pid := Program(goal, rows)]) && 0 < |pid| <= ID_MAX && |nid| <= ID_MAX
    requires nid in rows && rows[nid] == row && nid + ".1" !in rows
    requires forall n :: n in rows ==> rows[n].parentId != Some(nid)
    requires row.task.id == nid && PlainTask(row.task) && PlainStory(s) && Fits(s, row.task.budget)
    requires
      var altitude := MeaningOf(row.task.constraints).altitude;
      altitude != Some(Task) && RungBelow(altitude, s.altitude)
    ensures
      DecomposeNodeOp(map[pid := Program(goal, rows)], pid, nid, [s]) ==
        Ok(map[pid := Program(goal, rows[nid + ".1" := ChildRow(row.task, s)])])
  {
    var ledger: Ledger := map[pid := Program(goal, rows)];
    DecomposeOne(ledger, pid, nid, s);
    OneProgram(pid, goal, rows, rows[nid + ".1" := ChildRow(row.task, s)]);
  }

  lemma OneProgram(pid: string, goal: string, rows: Rows, after: Rows)
    ensures
      var ledger: Ledger := map[pid := Program(goal, rows)];
      ledger[pid := ledger[pid].(rows := after)] == map[pid := Program(goal, after)]
  {}

  lemma EpicIsALeaf(p: Plan)
    requires PlanOk(p)
    ensures
      var rows := CreatedRows(p);
      && EpicId(p) in rows && rows[EpicId(p)] == EpicRow(p) && StoryId(p) !in rows
      && forall n :: n in rows ==> rows[n].parentId != Some(EpicId(p))
  {
    IdsDiffer(p);
  }

  lemma EpicIsGrown(p: Plan)
    requires PlanOk(p) && LedgerOk(LedgerOf(p, CreatedRows(p)))
    ensures DecomposeNodeOp(LedgerOf(p, CreatedRows(p)), p.pid, EpicId(p), [p.story]) == Ok(LedgerOf(p, PlannedRows(p)))
  {
    EpicIsPlain(p);
    EpicIsALeaf(p);
    GrowLeaf(p.pid, p.goal, CreatedRows(p), EpicId(p), EpicRow(p), p.story);
  }

  lemma RunSnoc(env: Env, calls: seq<Call>, call: Call)
    ensures Run(env, START, calls + [call]) == Step(env, Run(env, START, calls), call)
  {
    assert (calls + [call])[..|calls|] == calls;
  }

  lemma TwoCalls(env: Env, a: Call, b: Call, first: State, second: State)
    requires Step(env, START, a) == first && Step(env, first, b) == second
    ensures Run(env, START, [a, b]) == second
  {
    RunSnoc(env, [], a);
    RunSnoc(env, [a], b);
    assert [] + [a] == [a] && [a] + [b] == [a, b];
  }

  lemma FirstState(env: Env, p: Plan)
    requires PlanOk(p)
    ensures Step(env, START, Setup(p)[0]) == State(World(LedgerOf(p, CreatedRows(p)), []), [])
    ensures LedgerOk(LedgerOf(p, CreatedRows(p)))
  {
    ProgramIsCreated(p);
    StepKeepsLedger(env, START, Setup(p)[0]);
  }

  lemma SecondState(env: Env, p: Plan)
    requires PlanOk(p) && LedgerOk(LedgerOf(p, CreatedRows(p)))
    ensures
      Step(env, State(World(LedgerOf(p, CreatedRows(p)), []), []), Setup(p)[1]) ==
        State(World(LedgerOf(p, PlannedRows(p)), []), [])
    ensures LedgerOk(LedgerOf(p, PlannedRows(p)))
  {
    EpicIsGrown(p);
    StepKeepsLedger(env, State(World(LedgerOf(p, CreatedRows(p)), []), []), Setup(p)[1]);
  }

  /** Create a program with one epic and give the epic one story: three planned rows. */
  lemma SetupLeads(env: Env, p: Plan)
    requires PlanOk(p)
    ensures Run(env, START, Setup(p)) == State(World(LedgerOf(p, PlannedRows(p)), []), [])
    ensures LedgerOk(LedgerOf(p, PlannedRows(p)))
  {
    FirstState(env, p);
    SecondState(env, p);
    TwoCalls(env, Setup(p)[0], Setup(p)[1], State(World(LedgerOf(p, CreatedRows(p)), []), []),
             State(World(LedgerOf(p, PlannedRows(p)), []), []));
  }

  // ----- filing it with an obliging tracker -----

  /** Numbers its issues by the calls it has seen, and accepts everything. */
  function Counting(): Oracle {
    Oracle((log, input) => Created(Decimal(|log| + 1)), (log, number, body) => true, (log, ref) => IssueOpen)
  }

  lemma DigitResolves(c: char)
    requires IsDigit(c)
    ensures Trim([c]) == [c] && IssueNumber([c]) == Some([c])
  {
    assert Trimmed([c]);
    TrimOfTrimmed([c]);
    OneDigitResolves(c);
  }

  lemma OneDigitResolves(c: char)
    requires IsDigit(c)
    ensures ResolveNumber([c]) == Some([c])
  {
    assert "" + [c] == [c];
    TailResolves("", [c]);
  }

  /** Filing one pending node whose issue is valid, with a tracker that answers with a one-digit number. */
  lemma AcceptedStep(t: Oracle, render: Render, e: Emission, n: NodeRow, sent: CreateInput, c: char)
    requires Pending(e, n) && IsDigit(c)
    requires sent == IssueFor(render, n, ParentNumber(e.filed, n)) && ValidCreate(sent)
    requires t.create(e.log, sent) == Created([c])
    ensures
      var after := EmitOne(t, Execute, render, e, n);
      && after.rows == e.rows[n.nodeId := n.row.(state := Emitted, issueRef := Some([c]))]
      && after.log == e.log + [CreateCall(sent, Created([c]))]
      && after.filed == e.filed[n.nodeId := [c]]
      && after.thisRun == e.thisRun + [FiledNode(n.nodeId, [c], n.row)]
      && after.results == e.results + [NodeResult(n.nodeId, ParentNumber(e.filed, n), sent, FiledRecorded([c]))]
  {
    DigitIsGood(c);
    DigitResolves(c);
    RecordIsExact(e.rows, n.nodeId, [c]);
    var log := e.log + [CreateCall(sent, Created([c]))];
    var r := NodeResult(n.nodeId, ParentNumber(e.filed, n), sent, FiledRecorded([c]));
    FilingRecorded(e.(log := log), n, r, n.row.(state := Emitted, issueRef := Some([c])));
  }

  lemma EmitSnoc(t: Oracle, render: Render, start: Emission, queue: seq<NodeRow>, n: NodeRow)
    ensures EmitAll(t, Execute, render, start, queue + [n]) ==
      EmitOne(t, Execute, render, EmitAll(t, Execute, render, start, queue), n)
  {
    assert (queue + [n])[..|queue|] == queue;
  }

  function Queue(p: Plan): seq<NodeRow> {
    [NodeRow(p.pid, RootRow(p)), NodeRow(EpicId(p), EpicRow(p)), NodeRow(StoryId(p), StoryRow(p))]
  }

  lemma AllPlanned(rows: Rows)
    requires forall n :: n in rows ==> rows[n].state == Planned
    ensures IsListing(rows, PlannedNodes(rows)) && IdSet(PlannedNodes(rows)) == rows.Keys
  {
    SelectedRows(rows, Planned);
  }

  lemma ThreeListed(rows: Rows, a: NodeRow, b: NodeRow, c: NodeRow)
    requires rows == map[a.nodeId := a.row, b.nodeId := b.row, c.nodeId := c.row]
    requires Less(a.nodeId, b.nodeId) && Less(b.nodeId, c.nodeId) && Less(a.nodeId, c.nodeId)
    requires a.nodeId != b.nodeId && b.nodeId != c.nodeId && c.nodeId != a.nodeId
    ensures IsListing(rows, [a, b, c]) && IdSet([a, b, c]) == rows.Keys
  {
    ThreeIds(a, b, c);
  }

  lemma ThreePlanned(rows: Rows, a: NodeRow, b: NodeRow, c: NodeRow)
    requires rows == map[a.nodeId := a.row, b.nodeId := b.row, c.nodeId := c.row]
    requires a.row.state == Planned && b.row.state == Planned && c.row.state == Planned
    requires Less(a.nodeId, b.nodeId) && Less(b.nodeId, c.nodeId) && Less(a.nodeId, c.nodeId)
    requires a.nodeId != b.nodeId && b.nodeId != c.nodeId && c.nodeId != a.nodeId
    ensures PlannedNodes(rows) == [a, b, c]
  {
    AllPlanned(rows);
    ThreeListed(rows, a, b, c);
    SameListing(rows, PlannedNodes(rows), [a, b, c]);
  }

  lemma ThreeIds(a: NodeRow, b: NodeRow, c: NodeRow)
    ensures IdSet([a, b, c]) == {a.nodeId, b.nodeId, c.nodeId}
  {
    var q := [a, b, c];
    assert q[0].nodeId in IdSet(q) && q[1].nodeId in IdSet(q) && q[2].nodeId in IdSet(q);
  }

  lemma QueueIsPlanned(p: Plan)
    ensures PlannedNodes(PlannedRows(p)) == Queue(p)
  {
    IdsDiffer(p);
    ThreePlanned(PlannedRows(p), Queue(p)[0], Queue(p)[1], Queue(p)[2]);
  }

  // ----- the emit -----

  predicate ShortGoals(p: Plan) {
    |p.goal| <= TITLE_MAX && |p.epic.goal| <= TITLE_MAX && |p.story.goal| <= TITLE_MAX
  }

  /** Every issue body is short. */
  ghost predicate ShortPayload(render: Render) {
    forall task :: |render(task)| <= 1000
  }

  lemma LabelsAreFew(constraints: seq<string>)
    requires ProgramLabels(constraints).Some?
    ensures |ProgramLabels(constraints).value| <= 4
    ensures forall text :: text in ProgramLabels(constraints).value ==> LabelSafe(text)
  {
    DedupedIsShorter(RawLabels(TagsOf(constraints).value));
  }

  lemma {:induction false} DedupedIsShorter(xs: seq<string>)
    ensures |Deduped(xs)| <= |xs|
  {
    if xs != [] { DedupedIsShorter(xs[..|xs| - 1]); }
  }

  lemma IssueIsValid(render: Render, n: NodeRow, parentNumber: Option<string>)
    requires ShortPayload(render) && RowIsValid(n.row)
    requires parentNumber.Some? ==> |parentNumber.value| <= 1
    ensures ValidCreate(IssueFor(render, n, parentNumber))
  {
    assert |render(n.row.task)| <= 1000;
    var body := IssueBody(render, n.row.task);
    assert |body| <= 1000 + 256 + 6;
    assert |LinkedBody(body, parentNumber)| <= |body| + 12;
  }

  predicate RowIsValid(row: Row) {
    && row.state == Planned && row.goal == row.task.goal && 1 <= |row.goal| <= TITLE_MAX
    && |row.labels| <= LABELS_MAX && forall text :: text in row.labels ==> LabelSafe(text)
  }

  lemma ChildRowIsValid(parent: TaskContract, s: StorySpec)
    requires PlainStory(s) && |s.goal| <= TITLE_MAX
    ensures RowIsValid(ChildRow(parent, s))
  {
    PlainConstraints(s);
    LabelsAreFew(ChildConstraints([], s));
  }

  predicate OneDigitNumbers(filed: map<string, string>) {
    forall n :: n in filed ==> |filed[n]| == 1
  }

  lemma CountingAnswers(log: Log, input: CreateInput)
    requires |log| < 9
    ensures Counting().create(log, input) == Created([DigitChar(|log| + 1)])
  {}

  /** One more node filed under the next number. */
  predicate Counted(e: Emission, n: NodeRow, after: Emission) {
    && |e.log| < 9
    && var number := [DigitChar(|e.log| + 1)];
       && after.rows == e.rows[n.nodeId := n.row.(state := Emitted, issueRef := Some(number))]
       && |after.log| == |e.log| + 1 && e.log <= after.log
       && after.log[|e.log|].CreateCall? && after.log[|e.log|].createAnswer == Created(number)
       && OneDigitNumbers(after.filed) && after.thisRun == e.thisRun + [FiledNode(n.nodeId, number, n.row)]
  }

  lemma CountedStep(render: Render, e: Emission, n: NodeRow)
    requires ShortPayload(render) && Pending(e, n) && RowIsValid(n.row) && OneDigitNumbers(e.filed) && |e.log| < 9
    ensures Counted(e, n, EmitOne(Counting(), Execute, render, e, n))
  {
    var parentNumber := ParentNumber(e.filed, n);
    var sent := IssueFor(render, n, parentNumber);
    IssueIsValid(render, n, parentNumber);
    CountingAnswers(e.log, sent);
    AcceptedStep(Counting(), render, e, n, sent, DigitChar(|e.log| + 1));
  }

  /** Three nodes filed as issues 1, 2 and 3. */
  predicate FiledAsThree(e: Emission, a: NodeRow, b: NodeRow, c: NodeRow) {
    && e.thisRun == [FiledNode(a.nodeId, "1", a.row), FiledNode(b.nodeId, "2", b.row), FiledNode(c.nodeId, "3", c.row)]
    && |e.log| == 3
    && (forall i :: 0 <= i < 3 ==> e.log[i].CreateCall? && e.log[i].createAnswer == Created([DigitChar(i + 1)]))
    && a.nodeId in e.rows && e.rows[a.nodeId] == a.row.(state := Emitted, issueRef := Some("1"))
  }

  lemma ThreeCounted(e0: Emission, e1: Emission, e2: Emission, e3: Emission, a: NodeRow, b: NodeRow, c: NodeRow)
    requires Counted(e0, a, e1) && Counted(e1, b, e2) && Counted(e2, c, e3)
    requires e0.log == [] && e0.thisRun == [] && a.nodeId != b.nodeId && c.nodeId != a.nodeId
    ensures FiledAsThree(e3, a, b, c)
  {
    assert [DigitChar(1)] == "1" && [DigitChar(2)] == "2" && [DigitChar(3)] == "3";
  }

  ghost function FilingOfThree(render: Render, rows: Rows, a: NodeRow, b: NodeRow, c: NodeRow): Emission {
    EmitAll(Counting(), Execute, render, StartOf(rows, []), [a, b, c])
  }

  /** Filing a queue and then one more node. */
  lemma FiledNext(render: Render, rows: Rows, queue: seq<NodeRow>, e: Emission, n: NodeRow) returns (after: Emission)
    requires e == EmitAll(Counting(), Execute, render, StartOf(rows, []), queue)
    requires ShortPayload(render) && Pending(e, n) && RowIsValid(n.row) && OneDigitNumbers(e.filed) && |e.log| < 9
    ensures after == EmitAll(Counting(), Execute, render, StartOf(rows, []), queue + [n]) && Counted(e, n, after)
  {
    EmitSnoc(Counting(), render, StartOf(rows, []), queue, n);
    CountedStep(render, e, n);
    after := EmitOne(Counting(), Execute, render, e, n);
  }

  lemma ThreeFiled(render: Render, rows: Rows, a: NodeRow, b: NodeRow, c: NodeRow)
    requires ShortPayload(render) && RowIsValid(a.row) && RowIsValid(b.row) && RowIsValid(c.row)
    requires rows == map[a.nodeId := a.row, b.nodeId := b.row, c.nodeId := c.row]
    requires a.nodeId != b.nodeId && b.nodeId != c.nodeId && c.nodeId != a.nodeId
    ensures FiledAsThree(FilingOfThree(render, rows, a, b, c), a, b, c)
  {
    assert [] + [a] == [a] && [a] + [b] == [a, b] && [a, b] + [c] == [a, b, c];
    var start := NothingFiledYet(render, rows);
    var first := FiledNext(render, rows, [], start, a);
    SecondPending(start, a, first, b, c);
    var second := FiledNext(render, rows, [a], first, b);
    SecondPending(first, b, second, c, c);
    var third := FiledNext(render, rows, [a, b], second, c);
    ThreeCounted(start, first, second, third, a, b, c);
  }

  lemma NothingFiledYet(render: Render, rows: Rows) returns (start: Emission)
    requires forall n :: n in rows ==> rows[n].state == Planned
    ensures start == EmitAll(Counting(), Execute, render, StartOf(rows, []), [])
    ensures start.rows == rows && start.log == [] && start.thisRun == [] && OneDigitNumbers(start.filed)
  {
    start := StartOf(rows, []);
    assert start.filed == map[];
  }

  /** Filing one node leaves the others pending. */
  lemma SecondPending(e: Emission, n: NodeRow, after: Emission, b: NodeRow, c: NodeRow)
    requires Counted(e, n, after) && Pending(e, b) && Pending(e, c) && n.nodeId != b.nodeId && n.nodeId != c.nodeId
    ensures Pending(after, b) && Pending(after, c)
  {}

  /** With a tracker that accepts every edit, the accepted ones are the well-formed ones. */
  lemma {:induction false} EditsAreAccepted(
    render: Render, thisRun: seq<FiledNode>, log: Log, parents: seq<FiledNode>)
    ensures
      var updates := UpdateEpics(Counting(), render, thisRun, log, parents).updates;
      forall u :: u in updates ==> (u.ok <==> ValidBody(u.body))
  {
    if parents != [] { EditsAreAccepted(render, thisRun, log, parents[..|parents| - 1]); }
  }

  lemma {:induction false} EditsHaveNoNumbers(updates: seq<EpicUpdate>)
    ensures forall x :: x in EditCalls(updates) ==> CreatedNumber(x) == None
  {
    if updates != [] { EditsHaveNoNumbers(updates[..|updates| - 1]); }
  }

  // ----- the link that the emit takes back -----

  predicate ReadyToFile(p: Plan) {
    PlanOk(p) && ShortGoals(p) && p.cfg.tracker == Some(EnforceWrites)
  }

  function EmitCall(p: Plan): Call { Call(p.cfg, Emit(p.pid, true, None)) }

  ghost function Filed(render: Render, p: Plan): Emission {
    FilingOfThree(render, PlannedRows(p), Queue(p)[0], Queue(p)[1], Queue(p)[2])
  }

  ghost function Edited(render: Render, p: Plan): EpicRun {
    UpdateEpics(Counting(), render, Filed(render, p).thisRun, Filed(render, p).log, Filed(render, p).thisRun)
  }

  lemma PlanIsFiled(render: Render, p: Plan)
    requires ReadyToFile(p) && ShortPayload(render)
    ensures FiledAsThree(Filed(render, p), Queue(p)[0], Queue(p)[1], Queue(p)[2])
  {
    IdsDiffer(p);
    ChildRowIsValid(RootTask(p), p.epic);
    ChildRowIsValid(EpicRow(p).task, p.story);
    var q := Queue(p);
    ThreeFiled(render, PlannedRows(p), q[0], q[1], q[2]);
  }

  lemma ScriptLeads(render: Render, p: Plan)
    requires ReadyToFile(p)
    ensures
      Run(Env(Counting(), render), START, Setup(p) + [EmitCall(p)]).world ==
        World(LedgerOf(p, Filed(render, p).rows), Edited(render, p).log)
  {
    var env := Env(Counting(), render);
    SetupLeads(env, p);
    RunSnoc(env, Setup(p), EmitCall(p));
    QueueIsPlanned(p);
    EmitLeads(env, p, State(World(LedgerOf(p, PlannedRows(p)), []), []));
  }

  lemma PlanFiles(env: Env, p: Plan, s: State)
    requires ReadyToFile(p) && PlannedNodes(PlannedRows(p)) == Queue(p)
    requires s == State(World(LedgerOf(p, PlannedRows(p)), []), [])
    ensures Files(env, s, EmitCall(p))
  {}

  lemma EmitLeads(env: Env, p: Plan, s: State)
    requires ReadyToFile(p) && env.tracker == Counting() && PlannedNodes(PlannedRows(p)) == Queue(p)
    requires s == State(World(LedgerOf(p, PlannedRows(p)), []), []) && LedgerOk(s.world.ledger)
    ensures Step(env, s, EmitCall(p)).world ==
      World(LedgerOf(p, Filed(env.render, p).rows), Edited(env.render, p).log)
  {
    PlanFiles(env, p, s);
    FilesListing(env, s, EmitCall(p));
    OneProgram(p.pid, p.goal, PlannedRows(p), Filed(env.render, p).rows);
    assert Queue(p) == [Queue(p)[0], Queue(p)[1], Queue(p)[2]];
  }

  /** The epic's issue is edited, and the edit is accepted. */
  lemma EpicIsEdited(render: Render, p: Plan)
    requires ReadyToFile(p) && ShortPayload(render)
    requires FiledAsThree(Filed(render, p), Queue(p)[0], Queue(p)[1], Queue(p)[2])
    requires TaskListsOk(render, Filed(render, p).thisRun, Edited(render, p).updates)
    ensures EditAccepted(Edited(render, p).updates, EpicId(p))
  {
    var thisRun, updates := Filed(render, p).thisRun, Edited(render, p).updates;
    var epic, story := thisRun[1], thisRun[2];
    IdsDiffer(p);
    StoryIsListed(p, thisRun, epic, story);
    assert epic in thisRun && IsListed(render, thisRun, epic, updates);
    var u :| u in updates && ListsChildren(render, thisRun, epic, u);
    ShortBody(render, epic.row.task, story);
    EditsAreAccepted(render, thisRun, Filed(render, p).log, thisRun);
  }

  lemma StoryIsListed(p: Plan, thisRun: seq<FiledNode>, epic: FiledNode, story: FiledNode)
    requires |thisRun| == 3 && thisRun[1] == epic && thisRun[2] == story
    requires thisRun[0].row == RootRow(p) && epic.row == EpicRow(p) && story.row == StoryRow(p)
    requires epic.nodeId == EpicId(p) && PlanOk(p)
    ensures ChildrenFiled(thisRun, EpicId(p)) == [story]
  {
    IdsDiffer(p);
    EpicIsPlain(p);
    var two, one := thisRun[..2], thisRun[..1];
    assert two[..1] == one && one[..0] == [];
    assert ChildrenFiled(one, EpicId(p)) == [];
    assert ChildrenFiled(two, EpicId(p)) == [];
  }

  lemma ShortBody(render: Render, task: TaskContract, story: FiledNode)
    requires ShortPayload(render) && |task.goal| <= TITLE_MAX && |story.number| == 1
    ensures ValidBody(IssueBody(render, task) + SUB_ISSUES + TaskList([story]))
  {
    assert |render(task)| <= 1000;
    assert TaskLines(Numbers([story])) == [TaskLine(story.number)];
    assert |TaskList([story])| == 8;
  }

  lemma DigitCreated(x: Exchange, c: char)
    requires IsDigit(c) && x.CreateCall? && x.createAnswer == Created([c])
    ensures CreatedNumber(x) == Some([c])
  {
    DigitResolves(c);
  }

  function CountedAt(i: nat): Option<string> {
    if i < 3 then Some([DigitChar(i + 1)]) else None
  }

  lemma NumberAt(e: Emission, a: NodeRow, b: NodeRow, c: NodeRow, updates: seq<EpicUpdate>, i: nat)
    requires FiledAsThree(e, a, b, c) && i < |e.log + EditCalls(updates)|
    ensures CreatedNumber((e.log + EditCalls(updates))[i]) == CountedAt(i)
  {
    var log := e.log + EditCalls(updates);
    if i < 3 {
      assert log[i] == e.log[i];
      DigitCreated(log[i], DigitChar(i + 1));
    } else {
      EditsHaveNoNumbers(updates);
      assert log[i] in EditCalls(updates);
    }
  }

  lemma CountsDiffer(i: nat, j: nat)
    requires i < j
    ensures CountedAt(i).Some? ==> CountedAt(i) != CountedAt(j)
  {
    if j < 3 { assert CountedAt(i).value[0] != CountedAt(j).value[0]; }
  }

  lemma NumbersDiffer(e: Emission, a: NodeRow, b: NodeRow, c: NodeRow, updates: seq<EpicUpdate>, i: nat, j: nat)
    requires FiledAsThree(e, a, b, c) && i < j < |e.log + EditCalls(updates)|
    ensures
      var log := e.log + EditCalls(updates);
      CreatedNumber(log[i]).Some? ==> CreatedNumber(log[i]) != CreatedNumber(log[j])
  {
    NumberAt(e, a, b, c, updates, i);
    NumberAt(e, a, b, c, updates, j);
    CountsDiffer(i, j);
  }

  lemma CountedNumbers(e: Emission, a: NodeRow, b: NodeRow, c: NodeRow, updates: seq<EpicUpdate>)
    requires FiledAsThree(e, a, b, c)
    ensures DistinctNumbers(e.log + EditCalls(updates))
  {
    var log := e.log + EditCalls(updates);
    forall i, j | 0 <= i < j < |log|
      ensures CreatedNumber(log[i]).Some? ==> CreatedNumber(log[i]) != CreatedNumber(log[j])
    {
      NumbersDiffer(e, a, b, c, updates, i, j);
    }
  }

  /** The epic was created in issue 2, as the report's second row says. */
  lemma EpicIsSecond(render: Render, p: Plan)
    requires ReadyToFile(p) && FiledAsThree(Filed(render, p), Queue(p)[0], Queue(p)[1], Queue(p)[2])
    requires IsQueue(PlannedRows(p), Queue(p))
    ensures |Filed(render, p).results| == 3 && FiledNumber(Filed(render, p).results[1]) == Some("2")
  {
    var e, q := Filed(render, p), Queue(p);
    assert q == [q[0], q[1], q[2]];
    EmitIsTruthful(Counting(), Execute, render, PlannedRows(p), [], q);
    FiledAreReported(q, e.results);
    assert e.thisRun[1] in e.thisRun;
    var j := FiledRowOf(q, e.results, e.thisRun[1]);
    IdsDiffer(p);
  }

  lemma EpicBodyAfter(render: Render, p: Plan)
    requires ReadyToFile(p) && ShortPayload(render) && !GoalSpellsLink(p.epic.goal, "1")
    requires ProgramOk(p.pid, PlannedRows(p)) && PlannedNodes(PlannedRows(p)) == Queue(p)
    requires IsQueue(PlannedRows(p), Queue(p))
    requires FiledAsThree(Filed(render, p), Queue(p)[0], Queue(p)[1], Queue(p)[2])
    ensures BodyIn(Edited(render, p).log, "2").Some? && !HasParentLine(BodyIn(Edited(render, p).log, "2").value, "1")
  {
    var e, q, updates := Filed(render, p), Queue(p), Edited(render, p).updates;
    assert q == [q[0], q[1], q[2]];
    EmitLinks(Counting(), Execute, render, p.pid, PlannedRows(p), [], 1);
    EmitListsChildren(Counting(), Execute, render, PlannedRows(p), [], q);
    EpicIsEdited(render, p);
    EpicIsSecond(render, p);
    CountedNumbers(e, q[0], q[1], q[2], updates);
    FinalBodyIsLogged(Counting(), render, PlannedRows(p), [], q, 1, "2");
    RootNumber(render, p);
  }

  lemma RecordedNumber(row: Row, number: string)
    requires row.state == Emitted && row.issueRef == Some(number)
    ensures NumberOf(row) == IssueNumber(number)
  {}

  lemma EpicRowAfter(render: Render, p: Plan)
    requires ReadyToFile(p) && IsQueue(PlannedRows(p), Queue(p))
    ensures EpicId(p) in Filed(render, p).rows && Filed(render, p).rows[EpicId(p)].parentId == Some(p.pid)
  {
    var q, e := Queue(p), Filed(render, p);
    assert q == [q[0], q[1], q[2]];
    EmitIsTruthful(Counting(), Execute, render, PlannedRows(p), [], q);
    assert ResultFits(render, q[1], e.results[1], e.rows);
  }

  lemma RootNumber(render: Render, p: Plan)
    requires ReadyToFile(p) && FiledAsThree(Filed(render, p), Queue(p)[0], Queue(p)[1], Queue(p)[2])
    requires IsQueue(PlannedRows(p), Queue(p))
    ensures
      var rows := Filed(render, p).rows;
      && EpicId(p) in rows && LedgerParentNumber(rows, Queue(p)[1]) == Some("1")
      && LedgerParentNumber(rows, NodeRow(EpicId(p), rows[EpicId(p)])) == Some("1")
  {
    EpicRowAfter(render, p);
    assert ['1'] == "1";
    DigitResolves('1');
    RecordedNumber(Filed(render, p).rows[p.pid], "1");
  }

  lemma FilingIsReady(env: Env, p: Plan)
    requires ReadyToFile(p) && ShortPayload(env.render)
    ensures ProgramOk(p.pid, PlannedRows(p)) && PlannedNodes(PlannedRows(p)) == Queue(p)
    ensures IsQueue(PlannedRows(p), Queue(p))
    ensures FiledAsThree(Filed(env.render, p), Queue(p)[0], Queue(p)[1], Queue(p)[2])
  {
    SetupLeads(env, p);
    assert p.pid in LedgerOf(p, PlannedRows(p));
    QueueIsPlanned(p);
    PlanIsFiled(env.render, p);
    PlannedIsAQueue(p.pid, PlannedRows(p));
  }

  /**
   * Link correctness stops at creation: whatever the ids, goals and budgets of the plan, after the emit the epic's
   * parent is recorded as issue 1, but the body of the epic's own issue 2 no longer says `Parent: #1`.
   */
  lemma LinkIsTakenBack(render: Render, p: Plan)
    requires ReadyToFile(p) && ShortPayload(render) && !GoalSpellsLink(p.epic.goal, "1")
    ensures
      var world := Run(Env(Counting(), render), START, Setup(p) + [EmitCall(p)]).world;
      && p.pid in world.ledger && EpicId(p) in world.ledger[p.pid].rows
      && var rows := world.ledger[p.pid].rows;
         && LedgerParentNumber(rows, NodeRow(EpicId(p), rows[EpicId(p)])) == Some("1")
         && BodyIn(world.log, "2").Some? && !HasParentLine(BodyIn(world.log, "2").value, "1")
  {
    FilingIsReady(Env(Counting(), render), p);
    ScriptLeads(render, p);
    RootNumber(render, p);
    EpicBodyAfter(render, p);
  }

  const OVERLAY := Config("o", Budget(9, 9.0, 9.0), Some(EnforceWrites))
  const EPIC := StorySpec("e", None, Budget(5, 5.0, 5.0), None, None, Coder, Epic, None, None)
  const STORY := StorySpec("s", None, Budget(1, 1.0, 1.0), None, None, Coder, Story, None, None)

  const PLAN := Plan(OVERLAY, "p", "g", EPIC, STORY)

  lemma PlanIsReady()
    ensures ReadyToFile(PLAN) && PLAN.pid == "p" && EpicId(PLAN) == "p.1" && !GoalSpellsLink(PLAN.epic.goal, "1")
  {
    assert "p" + ".1" == "p.1";
    assert ParentLine("1")[0] == 'P' && ("e" + "\n\n")[0] == 'e';
  }

  /** Create program `p` with one epic, give the epic `p.1` one story, file all three. */
  function Script(): seq<Call> {
    [Call(OVERLAY, Create("p", "g", [EPIC])), Call(OVERLAY, DecomposeNode("p", "p.1", [STORY])),
     Call(OVERLAY, Emit("p", true, None))]
  }

  lemma ScriptIsThePlan()
    ensures Setup(PLAN) + [EmitCall(PLAN)] == Script()
  {
    PlanIsReady();
  }

  /** The same at one input. */
  lemma LinkIsLost()
    ensures
      var log := Run(Env(Counting(), task => "payload"), START, Script()).world.log;
      BodyIn(log, "2").Some? && !HasParentLine(BodyIn(log, "2").value, "1")
  {
    var render: Render := task => "payload";
    PlanIsReady();
    ScriptIsThePlan();
    LinkIsTakenBack(render, PLAN);
  }

  // ----- a child that no command can name -----

  lemma OneCall(env: Env, call: Call)
    ensures Run(env, START, [call]) == Step(env, START, call)
  {
    RunSnoc(env, [], call);
    assert [] + [call] == [call];
  }

  lemma CreatedState(env: Env, cfg: Config, pid: string, goal: string, s: StorySpec, ledger: Ledger)
    requires CreateOp(map[], cfg, pid, goal, [s]) == Ok(ledger) && ValidConfig(cfg)
    ensures Reachable(env, State(World(ledger, []), []))
  {
    OneCall(env, Call(cfg, Create(pid, goal, [s])));
    assert ValidCalls([Call(cfg, Create(pid, goal, [s]))]);
  }

  /** A program id of 255 or 256 characters is accepted, and its first child is stored but out of reach. */
  lemma ChildIsOutOfReach(env: Env, cfg: Config, pid: string, goal: string, s: StorySpec) returns (ledger: Ledger)
    requires ValidConfig(cfg) && ID_MAX - 2 < |pid| <= ID_MAX && goal != "" && PlainStory(s) && Fits(s, cfg.budgets)
    ensures CreateOp(map[], cfg, pid, goal, [s]) == Ok(ledger) && Reachable(env, State(World(ledger, []), []))
    ensures pid in ledger && pid + ".1" in ledger[pid].rows && ledger[pid].rows[pid + ".1"].state == Planned
    ensures OutOfReach(ledger, pid, pid + ".1") && !CanAdvance(ledger, pid, pid + ".1")
  {
    CreateOne(cfg, pid, goal, s);
    ledger := CreateOp(map[], cfg, pid, goal, [s]).value;
    CreatedState(env, cfg, pid, goal, s, ledger);
    ReachIsLength(env, State(World(ledger, []), []), pid, pid + ".1");
  }

  /** The same at one input: a program of 255 letters with one epic. */
  lemma LongProgram(env: Env) returns (ledger: Ledger)
    ensures
      var pid := seq(255, _ => 'p');
      && CreateOp(map[], OVERLAY, pid, "g", [EPIC]) == Ok(ledger) && Reachable(env, State(World(ledger, []), []))
      && pid in ledger && pid + ".1" in ledger[pid].rows && OutOfReach(ledger, pid, pid + ".1")
  {
    PlanIsReady();
    ledger := ChildIsOutOfReach(env, OVERLAY, seq(255, _ => 'p'), "g", EPIC);
  }
}
