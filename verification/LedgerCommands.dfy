/** What the growing and advancing commands accept, and that each keeps every program of the ledger well formed. */
module LedgerCommands {
  import opened Prelude
  import opened Text
  import opened ConstraintTags
  import opened Scrum
  import opened LedgerTree
  import opened TreeGrowth
  import opened LedgerModel

  // ----- create -----

  lemma {:induction false} InsertAfterFirst(first: NodeInput, rest: seq<NodeInput>)
    ensures InsertAll(map[], [first] + rest) == InsertAll(map[first.nodeId := NewRow(first)], rest)
  {
    if rest == [] {
      assert ([first] + rest)[..0] == [];
      assert [first] + rest == [first];
      assert InsertAll(map[], []) == Some(map[]);
    } else {
      InsertAfterFirst(first, rest[..|rest| - 1]);
      assert ([first] + rest)[..|rest|] == [first] + rest[..|rest| - 1];
    }
  }

  function RootRows(root: TaskContract): Rows {
    map[root.id := NewRow(RootInput(root))]
  }

  lemma RootRowOk(root: TaskContract)
    requires root.constraints == []
    ensures RowOk(NewRow(RootInput(root)))
  {}

  lemma SeedProgramOk(root: TaskContract)
    requires ValidTask(root) && root.constraints == [] && PositiveBudget(root.budget)
    ensures ProgramOk(root.id, RootRows(root))
    ensures Kids(Skeleton(RootRows(root)), root.id) == {}
  {
    RootRowOk(root);
    SeedIsOk(root.id, root);
    assert Skeleton(RootRows(root)) == map[root.id := Node(None, root)];
  }

  function CreatedChildren(root: TaskContract, stories: seq<StorySpec>): seq<TaskContract> {
    ToChildren(root, Free(root.constraints), stories)
  }

  /** `program create` succeeds exactly on a free, short id with an acceptable, labellable decomposition. */
  predicate CanCreate(ledger: Ledger, cfg: Config, pid: string, goal: string, stories: seq<StorySpec>) {
    var root := ProgramParent(cfg, pid, goal);
    && |pid| <= ID_MAX && pid != "" && goal != "" && pid !in ledger
    && Acceptable(root, stories) && AllLabelled(CreatedChildren(root, stories))
  }

  lemma CreateIsExact(ledger: Ledger, cfg: Config, pid: string, goal: string, stories: seq<StorySpec>)
    requires ValidConfig(cfg)
    ensures CreateOp(ledger, cfg, pid, goal, stories).Ok? <==> CanCreate(ledger, cfg, pid, goal, stories)
    ensures CanCreate(ledger, cfg, pid, goal, stories) ==>
      var rows := InsertAll(RootRows(ProgramParent(cfg, pid, goal)),
                            ChildInputs(pid, CreatedChildren(ProgramParent(cfg, pid, goal), stories)));
      && rows.Some? && ProgramOk(pid, rows.value)
      && CreateOp(ledger, cfg, pid, goal, stories) == Ok(ledger[pid := Program(goal, rows.value)])
  {
    var root := ProgramParent(cfg, pid, goal);
    DecomposeIsExact(root, stories);
    assert ValidTask(root) <==> pid != "" && goal != "";
    if Acceptable(root, stories) && AllLabelled(CreatedChildren(root, stories)) {
      var children := CreatedChildren(root, stories);
      SeedProgramOk(root);
      DecompositionIsABatch(root, stories);
      BatchInsert(pid, RootRows(root), pid, children);
      InsertAfterFirst(RootInput(root), ChildInputs(pid, children));
    }
  }

  // ----- decompose-node -----

  function ChildrenOf(row: Row, stories: seq<StorySpec>): seq<TaskContract> {
    ToChildren(row.task, Free(row.task.constraints), stories)
  }

  /**
   * `program decompose-node` succeeds exactly on a stored node with an acceptable, labellable decomposition that is
   * empty or the node's first: a second non-empty one collides on child `.1` and rolls back whole.
   */
  ghost predicate CanDecompose(ledger: Ledger, pid: string, nid: string, stories: seq<StorySpec>) {
    && |pid| <= ID_MAX && |nid| <= ID_MAX && pid in ledger && nid in ledger[pid].rows
    && Acceptable(ledger[pid].rows[nid].task, stories) && AllLabelled(ChildrenOf(ledger[pid].rows[nid], stories))
    && (stories == [] || Kids(Skeleton(ledger[pid].rows), nid) == {})
  }

  lemma NoOrphans(rows: Rows, p: string, children: seq<TaskContract>)
    requires p in rows && AllLabelled(children)
    ensures !HasOrphan(rows, ChildInputs(p, children))
  {}

  /** The program after the children of `nid` went in. */
  function Grown(program: Program, nid: string, children: seq<TaskContract>): Program
    requires AllLabelled(children) && InsertAll(program.rows, ChildInputs(nid, children)).Some?
  {
    program.(rows := InsertAll(program.rows, ChildInputs(nid, children)).value)
  }

  lemma StoreChildrenIsExact(ledger: Ledger, pid: string, nid: string, children: seq<TaskContract>)
    requires pid in ledger && nid in ledger[pid].rows && ProgramOk(pid, ledger[pid].rows)
    requires IsBatch(ledger[pid].rows[nid].task, children)
    ensures StoreChildren(ledger, pid, nid, children).Ok? <==>
      AllLabelled(children) && (children == [] || Kids(Skeleton(ledger[pid].rows), nid) == {})
    ensures StoreChildren(ledger, pid, nid, children).Ok? ==>
      && InsertAll(ledger[pid].rows, ChildInputs(nid, children)).Some?
      && ProgramOk(pid, Grown(ledger[pid], nid, children).rows)
      && StoreChildren(ledger, pid, nid, children) == Ok(ledger[pid := Grown(ledger[pid], nid, children)])
  {
    if AllLabelled(children) {
      BatchInsert(pid, ledger[pid].rows, nid, children);
      NoOrphans(ledger[pid].rows, nid, children);
    }
  }

  lemma DecomposeNodeIsExact(ledger: Ledger, pid: string, nid: string, stories: seq<StorySpec>)
    requires LedgerOk(ledger)
    ensures DecomposeNodeOp(ledger, pid, nid, stories).Ok? <==> CanDecompose(ledger, pid, nid, stories)
    ensures CanDecompose(ledger, pid, nid, stories) ==>
      var children := ChildrenOf(ledger[pid].rows[nid], stories);
      && InsertAll(ledger[pid].rows, ChildInputs(nid, children)).Some?
      && ProgramOk(pid, Grown(ledger[pid], nid, children).rows)
      && DecomposeNodeOp(ledger, pid, nid, stories) == Ok(ledger[pid := Grown(ledger[pid], nid, children)])
  {
    if |pid| <= ID_MAX && |nid| <= ID_MAX && pid in ledger && nid in ledger[pid].rows {
      var task := ledger[pid].rows[nid].task;
      DecomposeIsExact(task, stories);
      if Acceptable(task, stories) {
        DecompositionIsABatch(task, stories);
        StoreChildrenIsExact(ledger, pid, nid, ToChildren(task, Free(task.constraints), stories));
      }
    }
  }

  // ----- advance -----

  lemma ReplaceKeepsOk(before: Ledger, pid: string, program: Program)
    requires LedgerOk(before) && ProgramOk(pid, program.rows)
    ensures LedgerOk(before[pid := program])
  {}

  /** Moving one row by a legal step touches neither the tree nor any other row. */
  lemma MoveKeepsProgram(pid: string, rows: Rows, nid: string, to: Rung, ref: string)
    requires ProgramOk(pid, rows) && nid in rows && Trimmed(ref) && LegalMove(rows[nid].state, to, ref)
    ensures Skeleton(rows[nid := MoveRow(rows[nid], to, ref).value]) == Skeleton(rows)
    ensures ProgramOk(pid, rows[nid := MoveRow(rows[nid], to, ref).value])
  {
    var row := MovedRow(rows[nid], to, ref);
    ReplaceRow(pid, rows, nid, row);
  }

  /** A legal move keeps everything but rung and ref, and leaves the two in agreement. */
  lemma MovedRow(before: Row, to: Rung, ref: string) returns (row: Row)
    requires RowOk(before) && Trimmed(ref) && LegalMove(before.state, to, ref)
    ensures MoveRow(before, to, ref) == Ok(row) && RowOk(row)
    ensures row.parentId == before.parentId && row.task == before.task
  {
    MoveIsExact(before, to, ref);
    row := MoveRow(before, to, ref).value;
  }

  lemma ReplaceRow(pid: string, rows: Rows, nid: string, row: Row)
    requires ProgramOk(pid, rows) && nid in rows && RowOk(row)
    requires row.parentId == rows[nid].parentId && row.task == rows[nid].task
    ensures Skeleton(rows[nid := row]) == Skeleton(rows)
    ensures ProgramOk(pid, rows[nid := row])
  {
    SkeletonStays(rows, nid, row);
    var after := rows[nid := row];
    forall n | n in after
      ensures RowOk(after[n])
    {
      assert n == nid || after[n] == rows[n];
    }
  }

  lemma SkeletonStays(rows: Rows, nid: string, row: Row)
    requires nid in rows && row.parentId == rows[nid].parentId && row.task == rows[nid].task
    ensures Skeleton(rows[nid := row]) == Skeleton(rows)
  {}

  lemma AdvanceIsExact(ledger: Ledger, pid: string, nid: string, to: Rung, issueRef: Option<string>)
    ensures AdvanceNode(ledger, pid, nid, to, issueRef).Ok? <==>
      pid in ledger && nid in ledger[pid].rows && LegalMove(ledger[pid].rows[nid].state, to, CleanRef(issueRef))
  {
    if pid in ledger && nid in ledger[pid].rows {
      var ref := CleanRef(issueRef);
      CleanRefIsTrimmed(issueRef);
      MoveIsExact(ledger[pid].rows[nid], to, ref);
    }
  }

  lemma AdvanceKeepsLedger(ledger: Ledger, pid: string, nid: string, to: Rung, issueRef: Option<string>)
    requires LedgerOk(ledger) && AdvanceNode(ledger, pid, nid, to, issueRef).Ok?
    ensures LedgerOk(AdvanceNode(ledger, pid, nid, to, issueRef).value)
  {
    AdvanceIsExact(ledger, pid, nid, to, issueRef);
    CleanRefIsTrimmed(issueRef);
    var rows := ledger[pid].rows;
    MoveKeepsProgram(pid, rows, nid, to, CleanRef(issueRef));
    ReplaceKeepsOk(ledger, pid, ledger[pid].(rows := rows[nid := MoveRow(rows[nid], to, CleanRef(issueRef)).value]));
  }
}
