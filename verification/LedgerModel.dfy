/** The program ledger as a value: rows, the one-rung transition, the two inserts and the commands that use them. */
module LedgerModel {
  import opened Prelude
  import opened Text
  import opened ConstraintTags
  import opened Scrum
  import opened LedgerTree
  import opened TreeGrowth

  datatype Rung = Planned | Emitted | Done

  datatype Row = Row(
    parentId: Option<string>,
    goal: string,
    labels: seq<string>,
    task: TaskContract,
    state: Rung,
    issueRef: Option<string>)

  type Rows = map<string, Row>

  /** A row together with the id it is stored under, as the listing returns it. */
  datatype NodeRow = NodeRow(nodeId: string, row: Row)

  /** The `programs` row and the `program_nodes` rows of one program id. */
  datatype Program = Program(goal: string, rows: Rows)

  type Ledger = map<string, Program>

  datatype NodeInput = NodeInput(
    nodeId: string, parentId: Option<string>, goal: string, labels: seq<string>, task: TaskContract)

  datatype TrackerTier = SuggestOnly | EnforceWrites

  datatype Config = Config(overlay: string, budgets: Budget, tracker: Option<TrackerTier>)

  /** What the overlay schema guarantees when it is loaded. */
  predicate ValidConfig(cfg: Config) {
    cfg.overlay != "" && PositiveBudget(cfg.budgets)
  }

  datatype LedgerError =
    | DuplicateProgram
    | DuplicateNode
    | UnknownProgram
    | UnknownNode
    | InvalidTransition
    | InputRejected
    | SchemaRejected
    | UnsafeLabel
    | NotDecomposable(error: DecomposeError)

  const ID_MAX := 256
  const REF_MAX := 512

  // ----- issue refs and the one-rung transition -----

  predicate IsControl(c: char) { c <= '\U{001f}' || c == '\U{007f}' }

  predicate IsLetter(c: char) { 'A' <= c <= 'Z' || 'a' <= c <= 'z' }

  predicate IsSchemeChar(c: char) { IsAlphanumeric(c) || c == '+' || c == '.' || c == '-' }

  /** The leading run of scheme characters. */
  function SchemeRun(s: string): (n: nat)
    ensures n <= |s|
  {
    if s != [] && IsSchemeChar(s[0]) then 1 + SchemeRun(s[1..]) else 0
  }

  /** A letter, then scheme characters, then `://` (scheme as in section 3.1 of RFC 3986). */
  predicate IsUrl(s: string) {
    s != [] && IsLetter(s[0]) && "://" <= s[SchemeRun(s)..]
  }

  function Lower(c: char): char {
    if 'A' <= c <= 'Z' then (c as int + 32) as char else c
  }

  predicate IsHttps(s: string) {
    |s| >= 8 && s[5..8] == "://" && Lower(s[0]) == 'h' && Lower(s[1]) == 't' && Lower(s[2]) == 't'
    && Lower(s[3]) == 'p' && Lower(s[4]) == 's'
  }

  /** Short, no control characters, and https if it is a URL at all. */
  predicate RefShapeOk(ref: string) {
    && |ref| <= REF_MAX
    && (forall i :: 0 <= i < |ref| ==> !IsControl(ref[i]))
    && (IsUrl(ref) ==> IsHttps(ref))
  }

  function NextRung(from: Rung): Option<Rung> {
    match from case Planned => Some(Emitted) case Emitted => Some(Done) case Done => None
  }

  /** The ref as supplied on the command line, trimmed; a missing one counts as blank. */
  function CleanRef(issueRef: Option<string>): string {
    if issueRef.Some? then Trim(issueRef.value) else ""
  }

  /** The ref to persist, or the rejection: one rung forward only, and `emitted` needs a ref. */
  function ValidateTransition(from: Rung, to: Rung, ref: string): Result<Option<string>, LedgerError> {
    if NextRung(from) != Some(to) then Err(InvalidTransition)
    else if ref != "" && !RefShapeOk(ref) then Err(InvalidTransition)
    else if to == Emitted then (if ref == "" then Err(InvalidTransition) else Ok(Some(ref)))
    else Ok(if ref == "" then None else Some(ref))
  }

  /** The row after a move with an already trimmed ref. */
  function MoveRow(row: Row, to: Rung, ref: string): Result<Row, LedgerError> {
    match ValidateTransition(row.state, to, ref)
    case Err(e) => Err(e)
    case Ok(r) => Ok(row.(state := to, issueRef := if r.Some? then r else row.issueRef))
  }

  function AdvanceRow(row: Row, to: Rung, issueRef: Option<string>): Result<Row, LedgerError> {
    MoveRow(row, to, CleanRef(issueRef))
  }

  predicate GoodRef(ref: string) { ref != "" && Trimmed(ref) && RefShapeOk(ref) }

  /** Planned exactly when there is no ref, and every ref is a good one. */
  predicate RungOk(row: Row) {
    && (row.state == Planned <==> row.issueRef.None?)
    && (row.issueRef.Some? ==> GoodRef(row.issueRef.value))
  }

  lemma CleanRefIsTrimmed(issueRef: Option<string>)
    ensures Trimmed(CleanRef(issueRef))
  {}

  /** The move is legal: one rung forward, a ref on the way to `emitted`, and any ref well shaped. */
  predicate LegalMove(from: Rung, to: Rung, ref: string) {
    NextRung(from) == Some(to) && (to == Emitted ==> ref != "") && (ref != "" ==> GoodRef(ref))
  }

  lemma DigitIsGood(c: char)
    requires IsDigit(c)
    ensures !IsSpace(c) && GoodRef([c])
  {}

  /** A move succeeds exactly when legal, changes only rung and ref, and keeps the two in step. */
  lemma MoveIsExact(row: Row, to: Rung, ref: string)
    requires Trimmed(ref)
    ensures MoveRow(row, to, ref).Ok? <==> LegalMove(row.state, to, ref)
    ensures LegalMove(row.state, to, ref) ==>
      MoveRow(row, to, ref).value == row.(state := to, issueRef := if ref == "" then row.issueRef else Some(ref))
    ensures LegalMove(row.state, to, ref) && RungOk(row) ==> RungOk(MoveRow(row, to, ref).value)
  {}

  /** No scheme run can hide a non-https URL from the check: a good ref that has a scheme is https. */
  lemma {:induction false} SchemeRunIsMaximal(scheme: string, rest: string)
    requires forall i :: 0 <= i < |scheme| ==> IsSchemeChar(scheme[i])
    requires rest != [] ==> !IsSchemeChar(rest[0])
    ensures SchemeRun(scheme + rest) == |scheme|
  {
    if scheme != [] {
      SchemeRunIsMaximal(scheme[1..], rest);
      assert (scheme + rest)[1..] == scheme[1..] + rest;
    } else {
      assert scheme + rest == rest;
    }
  }

  lemma GoodRefIsNeverPlainHttp(scheme: string, host: string)
    requires scheme != "" && IsLetter(scheme[0]) && forall i :: 0 <= i < |scheme| ==> IsSchemeChar(scheme[i])
    requires GoodRef(scheme + "://" + host)
    ensures |scheme| == 5 && forall i :: 0 <= i < 5 ==> Lower(scheme[i]) == "https"[i]
  {
    var ref := scheme + "://" + host;
    assert ref == scheme + ("://" + host);
    SchemeRunIsMaximal(scheme, "://" + host);
    assert ref[|scheme|..] == "://" + host;
    assert IsUrl(ref) && IsHttps(ref);
    assert ref[5] == ':' && ref[|scheme|] == ':';
    assert forall i :: 0 <= i < 5 ==> ref[i] != ':';
    assert forall i :: 0 <= i < |scheme| ==> ref[i] == scheme[i] != ':';
  }

  // ----- inserts -----

  function NewRow(input: NodeInput): Row {
    Row(input.parentId, input.goal, input.labels, input.task, Planned, None)
  }

  /** Insert in order; None stands for the id collision that rolls the whole transaction back. */
  function InsertAll(rows: Rows, inputs: seq<NodeInput>): Option<Rows> {
    if inputs == [] then Some(rows)
    else match InsertAll(rows, inputs[..|inputs| - 1])
      case None => None
      case Some(r) =>
        var last := inputs[|inputs| - 1];
        if last.nodeId in r then None else Some(r[last.nodeId := NewRow(last)])
  }

  function NewIds(inputs: seq<NodeInput>): set<string> {
    set i | 0 <= i < |inputs| :: inputs[i].nodeId
  }

  predicate DistinctIds(inputs: seq<NodeInput>) {
    forall i, j :: 0 <= i < j < |inputs| ==> inputs[i].nodeId != inputs[j].nodeId
  }

  lemma NewIdsSnoc(init: seq<NodeInput>, last: NodeInput)
    ensures NewIds(init + [last]) == NewIds(init) + {last.nodeId}
    ensures DistinctIds(init + [last]) <==> DistinctIds(init) && last.nodeId !in NewIds(init)
  {
    var inputs := init + [last];
    assert inputs[|init|] == last;
    assert forall i :: 0 <= i < |init| ==> inputs[i] == init[i];
    assert forall i :: 0 <= i < |inputs| ==> i == |init| || inputs[i] == init[i];
  }

  predicate Inserted(rows: Rows, inputs: seq<NodeInput>, after: Rows) {
    && after.Keys == rows.Keys + NewIds(inputs)
    && (forall n :: n in rows ==> after[n] == rows[n])
    && forall i :: 0 <= i < |inputs| ==> inputs[i].nodeId in after && after[inputs[i].nodeId] == NewRow(inputs[i])
  }

  /** All or nothing: the batch goes in exactly when its ids are new and distinct, and nothing else changes. */
  lemma {:induction false} InsertIsExact(rows: Rows, inputs: seq<NodeInput>)
    ensures InsertAll(rows, inputs).Some? <==> DistinctIds(inputs) && NewIds(inputs) !! rows.Keys
    ensures InsertAll(rows, inputs).Some? ==> Inserted(rows, inputs, InsertAll(rows, inputs).value)
  {
    if inputs != [] {
      var init, last := inputs[..|inputs| - 1], inputs[|inputs| - 1];
      InsertIsExact(rows, init);
      NewIdsSnoc(init, last);
      assert inputs == init + [last];
      if InsertAll(rows, inputs).Some? { InsertedSnoc(rows, init, last, InsertAll(rows, init).value); }
    }
  }

  lemma InsertedSnoc(rows: Rows, init: seq<NodeInput>, last: NodeInput, after: Rows)
    requires Inserted(rows, init, after) && last.nodeId !in after
    ensures Inserted(rows, init + [last], after[last.nodeId := NewRow(last)])
  {
    NewIdsSnoc(init, last);
    var inputs := init + [last];
    forall i | 0 <= i < |inputs|
      ensures inputs[i].nodeId in after[last.nodeId := NewRow(last)]
        && after[last.nodeId := NewRow(last)][inputs[i].nodeId] == NewRow(inputs[i])
    {
      if i < |init| { assert inputs[i] == init[i]; }
    }
  }

  /** Some parent id is neither stored nor in the batch. */
  predicate HasOrphan(rows: Rows, inputs: seq<NodeInput>) {
    exists i :: 0 <= i < |inputs| && inputs[i].parentId.Some?
      && inputs[i].parentId.value !in NewIds(inputs) && inputs[i].parentId.value !in rows
  }

  function CreateProgram(ledger: Ledger, pid: string, goal: string,
                         inputs: seq<NodeInput>): Result<Ledger, LedgerError>
  {
    if pid in ledger then Err(DuplicateProgram)
    else match InsertAll(map[], inputs)
      case None => Err(DuplicateNode)
      case Some(rows) => Ok(ledger[pid := Program(goal, rows)])
  }

  function AddNodes(ledger: Ledger, pid: string, inputs: seq<NodeInput>): Result<Ledger, LedgerError> {
    if pid !in ledger then Err(UnknownProgram)
    else if HasOrphan(ledger[pid].rows, inputs) then Err(UnknownNode)
    else match InsertAll(ledger[pid].rows, inputs)
      case None => Err(DuplicateNode)
      case Some(rows) => Ok(ledger[pid := ledger[pid].(rows := rows)])
  }

  function SetRow(ledger: Ledger, pid: string, nid: string, row: Row): Ledger
    requires pid in ledger
  {
    ledger[pid := ledger[pid].(rows := ledger[pid].rows[nid := row])]
  }

  function AdvanceNode(ledger: Ledger, pid: string, nid: string, to: Rung,
                       issueRef: Option<string>): Result<Ledger, LedgerError>
  {
    if pid !in ledger || nid !in ledger[pid].rows then Err(UnknownNode)
    else match AdvanceRow(ledger[pid].rows[nid], to, issueRef)
      case Err(e) => Err(e)
      case Ok(row) => Ok(SetRow(ledger, pid, nid, row))
  }

  // ----- the growing commands -----

  function ProgramParent(cfg: Config, pid: string, goal: string): TaskContract {
    TaskContract(pid, None, goal, [], cfg.budgets, [], [], Suggest, cfg.overlay)
  }

  predicate AllLabelled(children: seq<TaskContract>) {
    forall i :: 0 <= i < |children| ==> ProgramLabels(children[i].constraints).Some?
  }

  function ChildInputs(p: string, children: seq<TaskContract>): (inputs: seq<NodeInput>)
    requires AllLabelled(children)
    ensures |inputs| == |children|
  {
    seq(|children|, i requires 0 <= i < |children| =>
      NodeInput(children[i].id, Some(p), children[i].goal, ProgramLabels(children[i].constraints).value, children[i]))
  }

  function RootInput(root: TaskContract): NodeInput {
    NodeInput(root.id, None, root.goal, [], root)
  }

  function CreateOp(ledger: Ledger, cfg: Config, pid: string, goal: string,
                    stories: seq<StorySpec>): Result<Ledger, LedgerError>
  {
    var root := ProgramParent(cfg, pid, goal);
    if |pid| > ID_MAX then Err(InputRejected)
    else if !ValidTask(root) then Err(SchemaRejected)
    else match DecomposeGoal(root, stories)
      case Err(e) => Err(NotDecomposable(e))
      case Ok(children) =>
        if !AllLabelled(children) then Err(UnsafeLabel)
        else CreateProgram(ledger, pid, goal, [RootInput(root)] + ChildInputs(pid, children))
  }

  /** Store the children of `nid`, unless some label is unsafe. */
  function StoreChildren(ledger: Ledger, pid: string, nid: string,
                         children: seq<TaskContract>): Result<Ledger, LedgerError>
  {
    if !AllLabelled(children) then Err(UnsafeLabel) else AddNodes(ledger, pid, ChildInputs(nid, children))
  }

  function DecomposeNodeOp(ledger: Ledger, pid: string, nid: string,
                           stories: seq<StorySpec>): Result<Ledger, LedgerError>
  {
    if |pid| > ID_MAX || |nid| > ID_MAX then Err(InputRejected)
    else if pid !in ledger || nid !in ledger[pid].rows then Err(InputRejected)
    else match DecomposeGoal(ledger[pid].rows[nid].task, stories)
      case Err(e) => Err(NotDecomposable(e))
      case Ok(children) => StoreChildren(ledger, pid, nid, children)
  }

  function AdvanceOp(ledger: Ledger, pid: string, nid: string, to: Rung,
                     issueRef: Option<string>): Result<Ledger, LedgerError>
  {
    if to == Planned then Err(InputRejected)
    else if |pid| > ID_MAX || |nid| > ID_MAX then Err(InputRejected)
    else AdvanceNode(ledger, pid, nid, to, issueRef)
  }

  // ----- the ledger invariant -----

  function Skeleton(rows: Rows): Tree {
    map n | n in rows :: Node(rows[n].parentId, rows[n].task)
  }

  /** Title and labels are frozen from the stored contract; rung and ref agree. */
  predicate RowOk(row: Row) {
    RungOk(row) && row.goal == row.task.goal && ProgramLabels(row.task.constraints) == Some(row.labels)
  }

  ghost predicate ProgramOk(pid: string, rows: Rows) {
    && TreeOk(pid, Skeleton(rows))
    && forall n :: n in rows ==> RowOk(rows[n])
  }

  ghost predicate LedgerOk(ledger: Ledger) {
    forall pid :: pid in ledger ==> ProgramOk(pid, ledger[pid].rows)
  }

  lemma InputsOfChildren(p: string, children: seq<TaskContract>)
    requires AllLabelled(children)
    ensures NewIds(ChildInputs(p, children)) == Ids(children)
    ensures DistinctIds(ChildInputs(p, children)) <==> Distinct(children)
  {
    var inputs := ChildInputs(p, children);
    assert forall i :: 0 <= i < |children| ==> inputs[i].nodeId == children[i].id;
  }

  lemma InsertPlants(rows: Rows, p: string, children: seq<TaskContract>)
    requires AllLabelled(children)
    ensures InsertAll(rows, ChildInputs(p, children)).Some? <==> Distinct(children) && Ids(children) !! rows.Keys
    ensures InsertAll(rows, ChildInputs(p, children)).Some? ==>
      IsPlanted(Skeleton(rows), Skeleton(InsertAll(rows, ChildInputs(p, children)).value), p, children)
  {
    var inputs := ChildInputs(p, children);
    InsertIsExact(rows, inputs);
    InputsOfChildren(p, children);
    if InsertAll(rows, inputs).Some? { PlantedRows(rows, InsertAll(rows, inputs).value, p, children); }
  }

  lemma PlantedRows(rows: Rows, after: Rows, p: string, children: seq<TaskContract>)
    requires AllLabelled(children)
    requires forall n :: n in after <==> n in rows || n in Ids(children)
    requires forall n :: n in rows ==> after[n] == rows[n]
    requires forall i :: 0 <= i < |children| ==>
      children[i].id in after && after[children[i].id] == NewRow(ChildInputs(p, children)[i])
    ensures IsPlanted(Skeleton(rows), Skeleton(after), p, children)
  {}

  lemma InsertKeepsRowOk(rows: Rows, p: string, children: seq<TaskContract>)
    requires AllLabelled(children) && InsertAll(rows, ChildInputs(p, children)).Some?
    requires forall n :: n in rows ==> RowOk(rows[n])
    ensures forall n :: n in InsertAll(rows, ChildInputs(p, children)).value ==>
      RowOk(InsertAll(rows, ChildInputs(p, children)).value[n])
  {
    var inputs := ChildInputs(p, children);
    var after := InsertAll(rows, inputs).value;
    InsertIsExact(rows, inputs);
    forall n | n in after
      ensures RowOk(after[n])
    {
      if n !in rows {
        var i :| 0 <= i < |inputs| && n == inputs[i].nodeId;
        assert after[n] == NewRow(inputs[i]);
      }
    }
  }

  /** An accepted batch goes in exactly under a node without children, and the program stays well formed. */
  lemma BatchInsert(pid: string, rows: Rows, p: string, children: seq<TaskContract>)
    requires ProgramOk(pid, rows) && p in rows && IsBatch(rows[p].task, children) && AllLabelled(children)
    ensures InsertAll(rows, ChildInputs(p, children)).Some? <==> children == [] || Kids(Skeleton(rows), p) == {}
    ensures InsertAll(rows, ChildInputs(p, children)).Some? ==>
      ProgramOk(pid, InsertAll(rows, ChildInputs(p, children)).value)
  {
    var tree := Skeleton(rows);
    BatchIsFresh(pid, tree, p, children);
    SecondDecompositionCollides(pid, tree, p);
    InsertPlants(rows, p, children);
    if InsertAll(rows, ChildInputs(p, children)).Some? {
      if children != [] && ChildId(p, 1) in tree { FirstChildCollides(tree, p, children); }
      InsertKeepsRowOk(rows, p, children);
      GrowthKeepsTree(pid, tree, Skeleton(InsertAll(rows, ChildInputs(p, children)).value), p, children);
    }
  }

  lemma FirstChildCollides(tree: Tree, p: string, children: seq<TaskContract>)
    requires p in tree && tree[p].task.id == p && IsBatch(tree[p].task, children) && children != []
    requires ChildId(p, 1) in tree
    ensures !(Ids(children) !! tree.Keys)
  {
    assert IsChild(tree[p].task, children[0], 0);
    assert children[0].id in Ids(children) && children[0].id in tree.Keys;
  }
}
