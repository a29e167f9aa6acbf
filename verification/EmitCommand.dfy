/** The emit and reconcile commands on the whole ledger, and the epic task lists. */
module EmitCommand {
  import opened Prelude
  import opened Text
  import opened LedgerModel
  import opened ParentsFirst
  import opened Listing
  import opened Tracker
  import opened Emission

  // ----- epic task lists -----

  /** One epic body edit: the parent and its issue, the children its task list names, the body sent and the outcome. */
  datatype EpicUpdate = EpicUpdate(nodeId: string, number: string, childIds: seq<string>, body: string, ok: bool)

  /** The children of `p` among the nodes filed this run, in filing order. */
  function ChildrenFiled(thisRun: seq<FiledNode>, p: string): seq<FiledNode> {
    if thisRun == [] then []
    else ChildrenFiled(thisRun[..|thisRun| - 1], p) +
         (if thisRun[|thisRun| - 1].row.parentId == Some(p) then [thisRun[|thisRun| - 1]] else [])
  }

  function Numbers(nodes: seq<FiledNode>): seq<string> {
    seq(|nodes|, i requires 0 <= i < |nodes| => nodes[i].number)
  }

  function NodeIds(nodes: seq<FiledNode>): seq<string> {
    seq(|nodes|, i requires 0 <= i < |nodes| => nodes[i].nodeId)
  }

  datatype EpicRun = EpicRun(updates: seq<EpicUpdate>, log: Log)

  function UpdateOne(t: Oracle, render: Render, thisRun: seq<FiledNode>, acc: EpicRun, parent: FiledNode): EpicRun {
    var children := ChildrenFiled(thisRun, parent.nodeId);
    match EpicBody(IssueBody(render, parent.row.task), Numbers(children))
    case None => acc
    case Some(body) =>
      var (ok, log) := EditBody(t, acc.log, parent.number, body);
      EpicRun(acc.updates + [EpicUpdate(parent.nodeId, parent.number, NodeIds(children), body, ok)], log)
  }

  function UpdateEpics(t: Oracle, render: Render, thisRun: seq<FiledNode>, log: Log, parents: seq<FiledNode>): EpicRun {
    if parents == [] then EpicRun([], log)
    else UpdateOne(t, render, thisRun, UpdateEpics(t, render, thisRun, log, parents[..|parents| - 1]),
                   parents[|parents| - 1])
  }

  predicate DistinctFiled(nodes: seq<FiledNode>) {
    forall i, j :: 0 <= i < j < |nodes| ==> nodes[i].nodeId != nodes[j].nodeId
  }

  lemma {:induction false} ChildrenAreSelected(thisRun: seq<FiledNode>, p: string)
    requires DistinctFiled(thisRun)
    ensures DistinctFiled(ChildrenFiled(thisRun, p))
    ensures forall c :: c in ChildrenFiled(thisRun, p) <==> c in thisRun && c.row.parentId == Some(p)
  {
    if thisRun != [] {
      var init, last := thisRun[..|thisRun| - 1], thisRun[|thisRun| - 1];
      ChildrenAreSelected(init, p);
      assert thisRun == init + [last];
      forall i | 0 <= i < |ChildrenFiled(init, p)|
        ensures ChildrenFiled(init, p)[i].nodeId != last.nodeId
      {
        assert ChildrenFiled(init, p)[i] in init;
      }
    }
  }

  /** The id occurs once or not at all, like the node it belongs to. */
  lemma {:induction false} IdCount(nodes: seq<FiledNode>, id: string)
    requires DistinctFiled(nodes)
    ensures multiset(NodeIds(nodes))[id] == if exists c :: c in nodes && c.nodeId == id then 1 else 0
  {
    if nodes != [] {
      var init, last := nodes[..|nodes| - 1], nodes[|nodes| - 1];
      IdCount(init, id);
      assert nodes == init + [last];
      assert NodeIds(nodes) == NodeIds(init) + [last.nodeId];
      assert last in nodes;
    }
  }

  /** The edit of `q`'s own body, listing exactly its children filed this run. */
  predicate UpdateFor(render: Render, thisRun: seq<FiledNode>, q: FiledNode, u: EpicUpdate) {
    var children := ChildrenFiled(thisRun, q.nodeId);
    && u.nodeId == q.nodeId && u.number == q.number && u.childIds == NodeIds(children)
    && EpicBody(IssueBody(render, q.row.task), Numbers(children)) == Some(u.body)
  }

  predicate ComesFrom(render: Render, thisRun: seq<FiledNode>, parents: seq<FiledNode>, u: EpicUpdate) {
    exists q :: q in parents && UpdateFor(render, thisRun, q, u)
  }

  predicate IsUpdated(render: Render, thisRun: seq<FiledNode>, updates: seq<EpicUpdate>, q: FiledNode) {
    exists u :: u in updates && UpdateFor(render, thisRun, q, u)
  }

  predicate DistinctUpdates(updates: seq<EpicUpdate>) {
    forall i, j :: 0 <= i < j < |updates| ==> updates[i].nodeId != updates[j].nodeId
  }

  /** One task list is sent per parent that has children filed this run, naming exactly those, with its own body. */
  predicate UpdatesFit(render: Render, thisRun: seq<FiledNode>, parents: seq<FiledNode>, updates: seq<EpicUpdate>) {
    && (forall u :: u in updates ==> ComesFrom(render, thisRun, parents, u))
    && (forall q :: q in parents && ChildrenFiled(thisRun, q.nodeId) != [] ==> IsUpdated(render, thisRun, updates, q))
    && DistinctUpdates(updates)
  }

  lemma {:induction false} EpicsAreUpdated(t: Oracle, render: Render, thisRun: seq<FiledNode>, log: Log,
                                           parents: seq<FiledNode>)
    requires DistinctFiled(parents)
    ensures UpdatesFit(render, thisRun, parents, UpdateEpics(t, render, thisRun, log, parents).updates)
  {
    if parents != [] {
      var init, last := parents[..|parents| - 1], parents[|parents| - 1];
      EpicsAreUpdated(t, render, thisRun, log, init);
      assert parents == init + [last];
      var earlier := UpdateEpics(t, render, thisRun, log, init);
      var added := UpdateAdded(t, render, thisRun, earlier, last);
      UpdatesExtend(render, thisRun, init, last, earlier.updates, added);
    }
  }

  /** A parent with children filed this run adds its edit; any other adds none. */
  lemma UpdateAdded(t: Oracle, render: Render, thisRun: seq<FiledNode>, acc: EpicRun, q: FiledNode)
    returns (added: seq<EpicUpdate>)
    ensures UpdateOne(t, render, thisRun, acc, q).updates == acc.updates + added
    ensures if ChildrenFiled(thisRun, q.nodeId) == [] then added == [] else |added| == 1
    ensures forall u :: u in added ==> UpdateFor(render, thisRun, q, u)
  {
    var updates := UpdateOne(t, render, thisRun, acc, q).updates;
    var children := ChildrenFiled(thisRun, q.nodeId);
    assert |Numbers(children)| == |children|;
    added := updates[|acc.updates|..];
  }

  lemma StillComesFrom(render: Render, thisRun: seq<FiledNode>, init: seq<FiledNode>, last: FiledNode, u: EpicUpdate)
    requires ComesFrom(render, thisRun, init, u) && forall q :: q in init ==> q.nodeId != last.nodeId
    ensures ComesFrom(render, thisRun, init + [last], u) && u.nodeId != last.nodeId
  {
    var q :| q in init && UpdateFor(render, thisRun, q, u);
    assert q in init + [last];
  }

  lemma LastComesFrom(render: Render, thisRun: seq<FiledNode>, init: seq<FiledNode>, last: FiledNode, u: EpicUpdate)
    requires UpdateFor(render, thisRun, last, u)
    ensures ComesFrom(render, thisRun, init + [last], u) && u.nodeId == last.nodeId
  {
    assert last in init + [last];
  }

  lemma StillUpdated(render: Render, thisRun: seq<FiledNode>, earlier: seq<EpicUpdate>, added: seq<EpicUpdate>,
                     q: FiledNode)
    requires IsUpdated(render, thisRun, earlier, q) || IsUpdated(render, thisRun, added, q)
    ensures IsUpdated(render, thisRun, earlier + added, q)
  {
    var u :| u in earlier + added && UpdateFor(render, thisRun, q, u);
  }

  lemma DistinctAppend(earlier: seq<EpicUpdate>, added: seq<EpicUpdate>, id: string)
    requires DistinctUpdates(earlier) && |added| <= 1
    requires (forall u :: u in earlier ==> u.nodeId != id) && forall u :: u in added ==> u.nodeId == id
    ensures DistinctUpdates(earlier + added)
  {}

  lemma UpdatesExtend(render: Render, thisRun: seq<FiledNode>, init: seq<FiledNode>, last: FiledNode,
                      earlier: seq<EpicUpdate>, added: seq<EpicUpdate>)
    requires UpdatesFit(render, thisRun, init, earlier) && forall q :: q in init ==> q.nodeId != last.nodeId
    requires |added| <= 1 && (ChildrenFiled(thisRun, last.nodeId) != [] ==> added != [])
    requires forall u :: u in added ==> UpdateFor(render, thisRun, last, u)
    ensures UpdatesFit(render, thisRun, init + [last], earlier + added)
  {
    forall u | u in earlier { StillComesFrom(render, thisRun, init, last, u); }
    forall u | u in added { LastComesFrom(render, thisRun, init, last, u); }
    DistinctAppend(earlier, added, last.nodeId);
    forall q | q in init + [last] && ChildrenFiled(thisRun, q.nodeId) != []
      ensures IsUpdated(render, thisRun, earlier + added, q)
    {
      if q == last { assert added[0] in added; }
      StillUpdated(render, thisRun, earlier, added, q);
    }
  }

  /**
   * Each child filed this run under a parent filed this run is named exactly once, in that parent's task list only;
   * a child whose parent was not filed this run is named in none.
   */
  lemma TaskListsAreExact(t: Oracle, render: Render, thisRun: seq<FiledNode>, log: Log, c: FiledNode)
    requires DistinctFiled(thisRun) && c in thisRun
    ensures
      var updates := UpdateEpics(t, render, thisRun, log, thisRun).updates;
      && (forall u :: u in updates ==>
            multiset(u.childIds)[c.nodeId] == if c.row.parentId == Some(u.nodeId) then 1 else 0)
      && (forall q :: q in thisRun && c.row.parentId == Some(q.nodeId) ==>
          exists u :: u in updates && u.nodeId == q.nodeId)
      && DistinctUpdates(updates)
  {
    var updates := UpdateEpics(t, render, thisRun, log, thisRun).updates;
    EpicsAreUpdated(t, render, thisRun, log, thisRun);
    forall u | u in updates
      ensures multiset(u.childIds)[c.nodeId] == if c.row.parentId == Some(u.nodeId) then 1 else 0
    {
      assert ComesFrom(render, thisRun, thisRun, u);
      var q :| q in thisRun && UpdateFor(render, thisRun, q, u);
      ChildrenAreSelected(thisRun, q.nodeId);
      IdCount(ChildrenFiled(thisRun, q.nodeId), c.nodeId);
      OneNodePerId(thisRun, c);
    }
    forall q | q in thisRun && c.row.parentId == Some(q.nodeId)
      ensures exists u :: u in updates && u.nodeId == q.nodeId
    {
      ChildrenAreSelected(thisRun, q.nodeId);
      assert c in ChildrenFiled(thisRun, q.nodeId);
      assert IsUpdated(render, thisRun, updates, q);
      var u :| u in updates && UpdateFor(render, thisRun, q, u);
    }
  }

  lemma OneNodePerId(nodes: seq<FiledNode>, c: FiledNode)
    requires DistinctFiled(nodes) && c in nodes
    ensures forall d :: d in nodes && d.nodeId == c.nodeId ==> d == c
  {}

  // ----- emit -----

  datatype World = World(ledger: Ledger, log: Log)

  datatype EmitReport = EmitReport(exit: nat, mode: Mode, results: seq<NodeResult>, updates: seq<EpicUpdate>)

  const SPAM_LIMIT := 20

  /** More than twenty issues need their exact count confirmed, as a string. */
  predicate SpamGuardPasses(count: nat, confirm: Option<string>) {
    count <= SPAM_LIMIT || confirm == Some(Decimal(count))
  }

  /** Execute only with the flag and at the enforce tier. */
  function ResolveMode(tracker: Option<TrackerTier>, executeFlag: bool): Mode {
    if executeFlag && tracker == Some(EnforceWrites) then Execute else DryRun
  }

  predicate NodeFailed(r: NodeResult) { r.outcome.NotFiled? || r.outcome.FiledUnrecorded? }

  function ExitCode(results: seq<NodeResult>, updates: seq<EpicUpdate>): nat {
    if (exists r :: r in results && NodeFailed(r)) || (exists u :: u in updates && !u.ok) then 1 else 0
  }

  ghost function PlannedNodes(rows: Rows): seq<NodeRow> {
    WithState(ListNodes(rows), Planned)
  }

  function SetRows(ledger: Ledger, pid: string, rows: Rows): Ledger
    requires pid in ledger
  {
    ledger[pid := ledger[pid].(rows := rows)]
  }

  /** File the queue, update the epics (execute only), and report. */
  function FileNodes(t: Oracle, mode: Mode, render: Render, w: World, pid: string,
                     queue: seq<NodeRow>): (World, EmitReport)
    requires pid in w.ledger
  {
    var e := EmitAll(t, mode, render, StartOf(w.ledger[pid].rows, w.log), queue);
    var epics := if mode == Execute then UpdateEpics(t, render, e.thisRun, e.log, e.thisRun) else EpicRun([], e.log);
    (World(SetRows(w.ledger, pid, e.rows), epics.log),
     EmitReport(ExitCode(e.results, epics.updates), mode, e.results, epics.updates))
  }

  ghost function EmitOp(t: Oracle, cfg: Config, render: Render, w: World, pid: string, executeFlag: bool,
                        confirm: Option<string>)
    : Result<(World, EmitReport), LedgerError>
  {
    if |pid| > ID_MAX || pid !in w.ledger then Err(InputRejected)
    else
      var planned := PlannedNodes(w.ledger[pid].rows);
      if planned == [] then Ok((w, EmitReport(0, DryRun, [], [])))
      else if !SpamGuardPasses(|planned|, confirm) then Err(InputRejected)
      else if cfg.tracker.None? && executeFlag then Err(InputRejected)
      else Ok(FileNodes(t, ResolveMode(cfg.tracker, executeFlag), render, w, pid, OrderOf(planned)))
  }

  // ----- reconcile -----

  datatype ReadResult = ReadResult(nodeId: string, issueRef: string, answer: ReadAnswer)

  datatype ReadRun = ReadRun(results: seq<ReadResult>, log: Log)

  datatype ReconcileReport = ReconcileReport(exit: nat, advanced: nat, results: seq<ReadResult>)

  /** The nodes reconcile reads: emitted, with a non-empty ref. */
  function WithRef(nodes: seq<NodeRow>): seq<NodeRow> {
    if nodes == [] then []
    else
      var last := nodes[|nodes| - 1];
      WithRef(nodes[..|nodes| - 1]) + (if last.row.issueRef.Some? && last.row.issueRef.value != "" then [last] else [])
  }

  function RefOf(n: NodeRow): string { if n.row.issueRef.Some? then n.row.issueRef.value else "" }

  function ReadAll(t: Oracle, log: Log, nodes: seq<NodeRow>): ReadRun {
    if nodes == [] then ReadRun([], log)
    else
      var run, last := ReadAll(t, log, nodes[..|nodes| - 1]), nodes[|nodes| - 1];
      var (answer, log') := GetIssue(t, run.log, RefOf(last));
      ReadRun(run.results + [ReadResult(last.nodeId, RefOf(last), answer)], log')
  }

  /** Advance every closed node to done; None when the ledger would refuse one of the advances. */
  function ApplyAdvances(rows: Rows, results: seq<ReadResult>): Option<Rows> {
    if results == [] then Some(rows)
    else match ApplyAdvances(rows, results[..|results| - 1])
      case None => None
      case Some(r) =>
        var last := results[|results| - 1];
        if last.answer != IssueClosed then Some(r)
        else if last.nodeId !in r then None
        else
          match AdvanceRow(r[last.nodeId], Done, None)
          case Err(_) => None
          case Ok(row) => Some(r[last.nodeId := row])
  }

  function Closed(results: seq<ReadResult>): nat {
    if results == [] then 0
    else Closed(results[..|results| - 1]) + (if results[|results| - 1].answer == IssueClosed then 1 else 0)
  }

  ghost function EmittedNodes(rows: Rows): seq<NodeRow> {
    WithRef(WithState(ListNodes(rows), Emitted))
  }

  ghost function ReconcileOp(t: Oracle, cfg: Config, w: World, pid: string,
                             executeFlag: bool): Result<(World, ReconcileReport), LedgerError>
  {
    if |pid| > ID_MAX || pid !in w.ledger || cfg.tracker.None? then Err(InputRejected)
    else
      var run := ReadAll(t, w.log, EmittedNodes(w.ledger[pid].rows));
      var exit := if exists r :: r in run.results && r.answer == ReadFailed then 1 else 0;
      if !executeFlag then Ok((World(w.ledger, run.log), ReconcileReport(exit, 0, run.results)))
      else match ApplyAdvances(w.ledger[pid].rows, run.results)
        case None => Err(InvalidTransition)
        case Some(rows) => Ok((World(SetRows(w.ledger, pid, rows), run.log),
                               ReconcileReport(exit, Closed(run.results), run.results)))
  }
}
