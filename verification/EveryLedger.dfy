/** What holds in every reachable ledger, field by field: budgets, altitudes, rungs and refs, and no empty text. */
module EveryLedger {
  import opened Prelude
  import opened Text
  import opened ConstraintTags
  import opened Scrum
  import opened StoryLaws
  import opened Sums
  import opened LedgerTree
  import opened LedgerModel
  import opened Listing
  import opened LedgerRuns
  import opened Outcomes

  // ----- budgets -----

  function TokensIn(rows: Rows): string -> real {
    n => if n in rows then rows[n].task.budget.tokens as real else 0.0
  }

  function UsdIn(rows: Rows): string -> real {
    n => if n in rows then rows[n].task.budget.usd else 0.0
  }

  function MinutesIn(rows: Rows): string -> real {
    n => if n in rows then rows[n].task.budget.wallClockMin else 0.0
  }

  lemma WeightsInWords(rows: Rows, nodes: set<string>)
    ensures Sum(Weight(Skeleton(rows), Tokens), nodes) == Sum(TokensIn(rows), nodes)
    ensures Sum(Weight(Skeleton(rows), Usd), nodes) == Sum(UsdIn(rows), nodes)
    ensures Sum(Weight(Skeleton(rows), WallClockMin), nodes) == Sum(MinutesIn(rows), nodes)
  {
    SumAgree(Weight(Skeleton(rows), Tokens), TokensIn(rows), nodes);
    SumAgree(Weight(Skeleton(rows), Usd), UsdIn(rows), nodes);
    SumAgree(Weight(Skeleton(rows), WallClockMin), MinutesIn(rows), nodes);
  }

  ghost predicate FitsBudget(rows: Rows, nodes: set<string>, b: Budget) {
    && Sum(TokensIn(rows), nodes) <= b.tokens as real && Sum(UsdIn(rows), nodes) <= b.usd
    && Sum(MinutesIn(rows), nodes) <= b.wallClockMin
  }

  function Childless(rows: Rows): set<string> {
    set n | n in rows && !HasChildren(rows, n)
  }

  lemma FitsInWords(rows: Rows, nodes: set<string>, b: Budget)
    requires forall d :: Sum(Weight(Skeleton(rows), d), nodes) <= Amount(b, d)
    ensures FitsBudget(rows, nodes, b)
  {
    WeightsInWords(rows, nodes);
    assert Sum(Weight(Skeleton(rows), Tokens), nodes) <= Amount(b, Tokens);
    assert Sum(Weight(Skeleton(rows), Usd), nodes) <= Amount(b, Usd);
    assert Sum(Weight(Skeleton(rows), WallClockMin), nodes) <= Amount(b, WallClockMin);
  }

  lemma AntichainFits(pid: string, rows: Rows, nodes: set<string>)
    requires ProgramOk(pid, rows) && Shortens(Skeleton(rows)) && Antichain(Skeleton(rows), nodes)
    ensures FitsBudget(rows, nodes, rows[pid].task.budget)
  {
    forall d { AntichainWithinRoot(pid, Skeleton(rows), nodes, d); }
    FitsInWords(rows, nodes, rows[pid].task.budget);
  }

  lemma LeavesFit(pid: string, rows: Rows)
    requires ProgramOk(pid, rows)
    ensures FitsBudget(rows, Childless(rows), rows[pid].task.budget)
  {
    forall d { LeavesWithinRoot(pid, Skeleton(rows), d); }
    LeavesInWords(rows);
    FitsInWords(rows, Childless(rows), rows[pid].task.budget);
  }

  /** In every reachable ledger pairwise non-ancestors, the leaves among them, fit in the root's three amounts. */
  lemma BudgetsInWords(env: Env, s: State, pid: string, nodes: set<string>)
    requires Reachable(env, s) && pid in s.world.ledger
    ensures
      var rows := s.world.ledger[pid].rows;
      && pid in rows && Shortens(Skeleton(rows)) && FitsBudget(rows, Childless(rows), rows[pid].task.budget)
      && (Antichain(Skeleton(rows), nodes) ==> FitsBudget(rows, nodes, rows[pid].task.budget))
  {
    var rows := s.world.ledger[pid].rows;
    ReachableIsOk(env, s);
    TreeShortens(pid, Skeleton(rows));
    LeavesFit(pid, rows);
    if Antichain(Skeleton(rows), nodes) { AntichainFits(pid, rows, nodes); }
  }

  lemma LeavesInWords(rows: Rows)
    ensures Leaves(Skeleton(rows)) == Childless(rows)
  {
    forall n | n in rows
      ensures HasChildren(rows, n) <==> Kids(Skeleton(rows), n) != {}
    {
      if HasChildren(rows, n) {
        var m :| m in rows && rows[m].parentId == Some(n);
        assert m in Kids(Skeleton(rows), n);
      }
    }
  }

  // ----- nodes -----

  /** The altitude a stored contract reads back as. */
  function AltitudeIn(rows: Rows, n: string): Option<Altitude>
    requires n in rows
  {
    MeaningOf(rows[n].task.constraints).altitude
  }

  /**
   * Every node of a reachable ledger but the root is its stored parent's id with a number, sits exactly one rung below
   * it (epic, story, task; anywhere under the root), and a task has no children.
   */
  lemma NodesInWords(env: Env, s: State, pid: string, n: string)
    requires Reachable(env, s) && pid in s.world.ledger && n in s.world.ledger[pid].rows && n != pid
    ensures
      var rows := s.world.ledger[pid].rows;
      && rows[n].parentId.Some? && rows[n].parentId.value in rows && AltitudeIn(rows, n).Some?
      && (exists k: nat :: k > 0 && n == Numbered(rows[n].parentId.value, k))
      && (rows[n].parentId.value == pid || MustBe(AltitudeIn(rows, rows[n].parentId.value), AltitudeIn(rows, n).value))
      && (AltitudeIn(rows, n) == Some(Task) ==> !HasChildren(rows, n))
  {
    var rows := s.world.ledger[pid].rows;
    ReachableIsOk(env, s);
    NodeDescends(pid, rows, n);
    TaskIsALeaf(pid, rows, n);
  }

  lemma TaskIsALeaf(pid: string, rows: Rows, n: string)
    requires ProgramOk(pid, rows) && n in rows && n != pid
    ensures AltitudeIn(rows, n) == Some(Task) ==> !HasChildren(rows, n)
  {
    if HasChildren(rows, n) {
      var m :| m in rows && rows[m].parentId == Some(n);
      RootHasNoParent(pid, rows);
      ChildOfNode(pid, rows, n, m);
    }
  }

  lemma ChildOfNode(pid: string, rows: Rows, n: string, m: string)
    requires ProgramOk(pid, rows) && n in rows && n != pid && m in rows && m != pid
    requires rows[m].parentId == Some(n)
    ensures AltitudeIn(rows, n) != Some(Task)
  {
    NodeDescends(pid, rows, m);
  }

  lemma RootHasNoParent(pid: string, rows: Rows)
    requires ProgramOk(pid, rows)
    ensures pid in rows && rows[pid].parentId == None
  {
    assert pid in Skeleton(rows) && Skeleton(rows)[pid].parentId == None;
  }

  lemma NodeDescends(pid: string, rows: Rows, n: string)
    requires ProgramOk(pid, rows) && n in rows && n != pid
    ensures rows[n].parentId.Some? && rows[n].parentId.value in rows && AltitudeIn(rows, n).Some?
    ensures exists k: nat :: k > 0 && n == Numbered(rows[n].parentId.value, k)
    ensures
      rows[n].parentId.value == pid || MustBe(AltitudeIn(rows, rows[n].parentId.value), AltitudeIn(rows, n).value)
  {
    var tree := Skeleton(rows);
    ParentSortsEarlier(pid, tree, n);
    AltitudeDescends(pid, tree, n);
    var k: nat :| k > 0 && n == ChildId(tree[n].parentId.value, k);
    assert n == Numbered(rows[n].parentId.value, k);
  }

  /** In every reachable ledger no stored text is empty, and every node has something to spend on every dimension. */
  lemma ContractsInWords(env: Env, s: State, pid: string, n: string)
    requires Reachable(env, s) && pid in s.world.ledger && n in s.world.ledger[pid].rows
    ensures
      var row := s.world.ledger[pid].rows[n];
      && row.task.id == n && row.goal == row.task.goal && "" !in TaskTexts(row.task)
      && row.task.budget.tokens > 0 && row.task.budget.usd > 0.0 && row.task.budget.wallClockMin > 0.0
      && row.labels == LabelsFor(MeaningOf(row.task.constraints))
      && forall text :: text in row.labels ==> LabelText(text)
  {
    var rows := s.world.ledger[pid].rows;
    ReachableIsOk(env, s);
    var tree := Skeleton(rows);
    assert NodeOk(tree, n) && RowOk(rows[n]) && (n != pid ==> LinkOk(tree, n));
    TaskSchema(rows[n].task);
    LabelsAreExact(rows[n].task.constraints);
  }

  /**
   * In every reachable ledger a node is planned exactly when it has no ref, and every ref is trimmed, non-empty and
   * sound: at most 512 characters, none a control character, and no URL but an https one.
   */
  lemma RungsInWords(env: Env, s: State, pid: string, n: string)
    requires Reachable(env, s) && pid in s.world.ledger && n in s.world.ledger[pid].rows
    ensures
      var row := s.world.ledger[pid].rows[n];
      && (row.state == Planned <==> row.issueRef.None?)
      && (row.issueRef.Some? ==>
            row.issueRef.value != "" && Trim(row.issueRef.value) == row.issueRef.value && RefText(row.issueRef.value))
  {
    RungsHoldEverywhere(env, s, pid, n);
    var row := s.world.ledger[pid].rows[n];
    if row.issueRef.Some? {
      TrimOfTrimmed(row.issueRef.value);
      RefIsText(row.issueRef.value);
    }
  }
}
