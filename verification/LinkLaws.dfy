/**
 * What an emit leaves in the tracker's issues: the calls in its log, the task lists, and which Parent lines survive.
 */
module LinkLaws {
  import opened Prelude
  import opened Text
  import opened Scrum
  import opened LedgerModel
  import opened ParentsFirst
  import opened Tracker
  import opened Emission
  import opened EmissionLaws
  import opened EmitCommand
  import opened CommandLaws

  // ----- the nodes filed this run -----

  /** A filed node carries its stored row as it was queued and the number its recorded ref resolves to. */
  predicate FiledFits(before: Rows, after: Rows, c: FiledNode) {
    && c.nodeId in before && c.row == before[c.nodeId]
    && c.nodeId in after && NumberOf(after[c.nodeId]) == Some(c.number)
  }

  /** Some report row of the queue is the recorded filing of `c`. */
  predicate Reported(queue: seq<NodeRow>, results: seq<NodeResult>, c: FiledNode)
    requires |queue| == |results|
  {
    exists i :: 0 <= i < |queue| && FiledBy(results[i], queue[i]) == [c]
  }

  lemma ReportedSnoc(queue: seq<NodeRow>, results: seq<NodeResult>, n: NodeRow, r: NodeResult, c: FiledNode)
    requires |queue| == |results|
    ensures Reported(queue + [n], results + [r], c) <==> Reported(queue, results, c) || FiledBy(r, n) == [c]
  {
    var k := |queue|;
    assert (queue + [n])[k] == n && (results + [r])[k] == r;
    if Reported(queue, results, c) {
      var i :| 0 <= i < k && FiledBy(results[i], queue[i]) == [c];
      assert (queue + [n])[i] == queue[i] && (results + [r])[i] == results[i];
    }
    if Reported(queue + [n], results + [r], c) {
      var i :| 0 <= i < k + 1 && FiledBy((results + [r])[i], (queue + [n])[i]) == [c];
      if i < k { assert FiledBy(results[i], queue[i]) == [c]; }
    }
  }

  lemma ReportedIsQueued(queue: seq<NodeRow>, results: seq<NodeResult>, c: FiledNode)
    requires |queue| == |results| && Reported(queue, results, c)
    ensures c.nodeId in IdSet(queue)
  {}

  lemma {:induction false} FiledAreReported(queue: seq<NodeRow>, results: seq<NodeResult>)
    requires |queue| == |results| && DistinctNodes(queue)
    ensures DistinctFiled(FiledOf(queue, results))
    ensures forall c :: c in FiledOf(queue, results) <==> Reported(queue, results, c)
  {
    if queue != [] {
      var init, n := queue[..|queue| - 1], queue[|queue| - 1];
      var reported, r := results[..|queue| - 1], results[|queue| - 1];
      assert queue == init + [n] && results == reported + [r];
      FiledAreReported(init, reported);
      forall c { ReportedSnoc(init, reported, n, r, c); }
      forall c | c in FiledOf(init, reported)
        ensures c.nodeId != n.nodeId
      {
        ReportedIsQueued(init, reported, c);
      }
      AppendFiled(FiledOf(init, reported), FiledBy(r, n), n.nodeId);
    }
  }

  lemma AppendFiled(earlier: seq<FiledNode>, last: seq<FiledNode>, id: string)
    requires DistinctFiled(earlier) && |last| <= 1 && (last != [] ==> last[0].nodeId == id)
    requires forall c :: c in earlier ==> c.nodeId != id
    ensures DistinctFiled(earlier + last)
    ensures forall c :: c in earlier + last <==> c in earlier || last == [c]
  {}

  /** An emit files no node twice, and what it remembers of each is what the ledger holds. */
  lemma FiledAreStored(t: Oracle, mode: Mode, render: Render, before: Rows, log: Log, queue: seq<NodeRow>)
    requires IsQueue(before, queue)
    ensures
      var e := EmitAll(t, mode, render, StartOf(before, log), queue);
      && DistinctFiled(e.thisRun)
      && (forall c :: c in e.thisRun ==> FiledFits(before, e.rows, c))
  {
    var e := EmitAll(t, mode, render, StartOf(before, log), queue);
    EmitIsTruthful(t, mode, render, before, log, queue);
    FiledAreReported(queue, e.results);
    forall c | c in e.thisRun
      ensures FiledFits(before, e.rows, c)
    {
      var i :| 0 <= i < |queue| && FiledBy(e.results[i], queue[i]) == [c];
      assert ResultFits(render, queue[i], e.results[i], e.rows);
      NumberOfRecorded(queue[i].row, e.results[i].outcome.ref, e.rows[c.nodeId]);
    }
  }

  // ----- the edit calls -----

  /** The tracker call an update stands for, if its body was well formed. */
  function EditCallOf(u: EpicUpdate): Log {
    if ValidBody(u.body) then [EditCall(u.number, u.body, u.ok)] else []
  }

  function EditCalls(updates: seq<EpicUpdate>): Log {
    if updates == [] then [] else EditCalls(updates[..|updates| - 1]) + EditCallOf(updates[|updates| - 1])
  }

  lemma EditCallsSnoc(updates: seq<EpicUpdate>, u: EpicUpdate)
    ensures EditCalls(updates + [u]) == EditCalls(updates) + EditCallOf(u)
  {
    assert (updates + [u])[..|updates|] == updates;
  }

  lemma UpdateIsLogged(t: Oracle, render: Render, thisRun: seq<FiledNode>, acc: EpicRun, parent: FiledNode, log: Log)
    requires acc.log == log + EditCalls(acc.updates) && forall u :: u in acc.updates && u.ok ==> ValidBody(u.body)
    ensures
      var after := UpdateOne(t, render, thisRun, acc, parent);
      after.log == log + EditCalls(after.updates) && forall u :: u in after.updates && u.ok ==> ValidBody(u.body)
  {
    var children := ChildrenFiled(thisRun, parent.nodeId);
    match EpicBody(IssueBody(render, parent.row.task), Numbers(children))
    case None =>
    case Some(body) =>
      var (ok, edited) := EditBody(t, acc.log, parent.number, body);
      var u := EpicUpdate(parent.nodeId, parent.number, NodeIds(children), body, ok);
      EditCallsSnoc(acc.updates, u);
      assert edited == acc.log + EditCallOf(u);
  }

  /** The tracker saw exactly the edits the report accounts for, in order, and accepted only well-formed ones. */
  lemma {:induction false} EditsAreLogged(
    t: Oracle, render: Render, thisRun: seq<FiledNode>, log: Log, parents: seq<FiledNode>)
    ensures
      var epics := UpdateEpics(t, render, thisRun, log, parents);
      epics.log == log + EditCalls(epics.updates) && forall u :: u in epics.updates && u.ok ==> ValidBody(u.body)
  {
    if parents == [] {
      assert log + [] == log;
    } else {
      var init := parents[..|parents| - 1];
      EditsAreLogged(t, render, thisRun, log, init);
      UpdateIsLogged(t, render, thisRun, UpdateEpics(t, render, thisRun, log, init), parents[|parents| - 1], log);
    }
  }

  // ----- the lines of a task list -----

  const SUB_ISSUES := "\n\n## Sub-issues\n"

  function Lines(text: string): seq<string> {
    match IndexOf(text, '\n')
    case None => [text]
    case Some(i) => [text[..i]] + Lines(text[i + 1..])
  }

  lemma {:induction false} LinesOfJoin(lines: seq<string>)
    requires lines != [] && forall i :: 0 <= i < |lines| ==> '\n' !in lines[i]
    ensures Lines(Join(lines, "\n")) == lines
  {
    if |lines| > 1 {
      var rest := Join(lines[1..], "\n");
      LinesOfJoin(lines[1..]);
      IndexOfUnique(lines[0], '\n', rest);
      var text := Join(lines, "\n");
      assert text == lines[0] + ['\n'] + rest && text[..|lines[0]|] == lines[0] && text[|lines[0]| + 1..] == rest;
    }
  }

  function TaskList(children: seq<FiledNode>): string {
    Join(TaskLines(Numbers(children)), "\n")
  }

  /** A stored number is made of digits. */
  lemma NumberIsDigits(row: Row, number: string)
    requires NumberOf(row) == Some(number)
    ensures AllDigits(number) && number != ""
  {}

  lemma TaskListLines(children: seq<FiledNode>)
    requires children != [] && forall c :: c in children ==> AllDigits(c.number)
    ensures Lines(TaskList(children)) == TaskLines(Numbers(children))
  {
    forall i | 0 <= i < |children|
      ensures '\n' !in TaskLine(children[i].number)
    {
      assert children[i] in children;
    }
    LinesOfJoin(TaskLines(Numbers(children)));
  }

  /** The edit of the issue of `q`: its own body, then one line for each of its children, in filing order. */
  predicate ListsChildren(render: Render, thisRun: seq<FiledNode>, q: FiledNode, u: EpicUpdate) {
    var children := ChildrenFiled(thisRun, q.nodeId);
    && children != [] && u.nodeId == q.nodeId && u.number == q.number && u.childIds == NodeIds(children)
    && u.body == q.row.task.goal + "\n\n---\n" + render(q.row.task) + "\n\n## Sub-issues\n" + TaskList(children)
    && |Lines(TaskList(children))| == |children|
    && forall k :: 0 <= k < |children| ==> Lines(TaskList(children))[k] == "- [ ] #" + children[k].number
  }

  lemma UpdateLists(render: Render, thisRun: seq<FiledNode>, q: FiledNode, u: EpicUpdate)
    requires DistinctFiled(thisRun) && UpdateFor(render, thisRun, q, u)
    requires forall c :: c in thisRun ==> AllDigits(c.number)
    ensures ListsChildren(render, thisRun, q, u)
  {
    var children := ChildrenFiled(thisRun, q.nodeId);
    ChildrenAreSelected(thisRun, q.nodeId);
    TaskListLines(children);
    var body := IssueBody(render, q.row.task);
    assert body + "\n\n" + "## Sub-issues" + "\n" + TaskList(children) == body + SUB_ISSUES + TaskList(children);
  }

  predicate ListsSome(render: Render, thisRun: seq<FiledNode>, u: EpicUpdate) {
    exists q :: q in thisRun && ListsChildren(render, thisRun, q, u)
  }

  predicate IsListed(render: Render, thisRun: seq<FiledNode>, q: FiledNode, updates: seq<EpicUpdate>) {
    exists u :: u in updates && ListsChildren(render, thisRun, q, u)
  }

  /** One edit for each parent with children filed this run, in its own issue, listing exactly them. */
  ghost predicate TaskListsOk(render: Render, thisRun: seq<FiledNode>, updates: seq<EpicUpdate>) {
    && DistinctUpdates(updates)
    && (forall u :: u in updates ==> ListsSome(render, thisRun, u))
    && (forall q :: q in thisRun && ChildrenFiled(thisRun, q.nodeId) != [] ==> IsListed(render, thisRun, q, updates))
  }

  /** The task lists an emit sends, down to their lines and the calls in the tracker's log. */
  lemma EmitListsChildren(t: Oracle, mode: Mode, render: Render, before: Rows, log: Log, queue: seq<NodeRow>)
    requires IsQueue(before, queue)
    ensures
      var e := EmitAll(t, mode, render, StartOf(before, log), queue);
      var epics := UpdateEpics(t, render, e.thisRun, e.log, e.thisRun);
      && TaskListsOk(render, e.thisRun, epics.updates)
      && epics.log == e.log + EditCalls(epics.updates)
      && (forall c :: c in e.thisRun ==> FiledFits(before, e.rows, c))
  {
    var e := EmitAll(t, mode, render, StartOf(before, log), queue);
    var updates := UpdateEpics(t, render, e.thisRun, e.log, e.thisRun).updates;
    FiledAreStored(t, mode, render, before, log, queue);
    EditsAreLogged(t, render, e.thisRun, e.log, e.thisRun);
    EpicsAreUpdated(t, render, e.thisRun, e.log, e.thisRun);
    forall c | c in e.thisRun { NumberIsDigits(e.rows[c.nodeId], c.number); }
    UpdatesList(render, e.thisRun, updates);
  }

  lemma UpdatesList(render: Render, thisRun: seq<FiledNode>, updates: seq<EpicUpdate>)
    requires DistinctFiled(thisRun) && UpdatesFit(render, thisRun, thisRun, updates)
    requires forall c :: c in thisRun ==> AllDigits(c.number)
    ensures TaskListsOk(render, thisRun, updates)
  {
    forall u | u in updates
      ensures ListsSome(render, thisRun, u)
    {
      assert ComesFrom(render, thisRun, thisRun, u);
      var q :| q in thisRun && UpdateFor(render, thisRun, q, u);
      UpdateLists(render, thisRun, q, u);
    }
    forall q | q in thisRun && ChildrenFiled(thisRun, q.nodeId) != []
      ensures IsListed(render, thisRun, q, updates)
    {
      assert IsUpdated(render, thisRun, updates, q);
      var u :| u in updates && UpdateFor(render, thisRun, q, u);
      UpdateLists(render, thisRun, q, u);
    }
  }

  /**
   * Each child filed under a parent filed in the same emit is named by exactly one line, in that parent's list; no
   * other list names it. The `k`-th line of a list is for the `k`-th of its `childIds`.
   */
  lemma ChildIsListedOnce(
    t: Oracle, mode: Mode, render: Render, before: Rows, log: Log, queue: seq<NodeRow>, c: FiledNode)
    requires IsQueue(before, queue) && c in EmitAll(t, mode, render, StartOf(before, log), queue).thisRun
    ensures
      var e := EmitAll(t, mode, render, StartOf(before, log), queue);
      var updates := UpdateEpics(t, render, e.thisRun, e.log, e.thisRun).updates;
      && (forall u :: u in updates ==>
            multiset(u.childIds)[c.nodeId] == if c.row.parentId == Some(u.nodeId) then 1 else 0)
      && (forall q :: q in e.thisRun && c.row.parentId == Some(q.nodeId) ==> IsListed(render, e.thisRun, q, updates))
  {
    var e := EmitAll(t, mode, render, StartOf(before, log), queue);
    FiledAreStored(t, mode, render, before, log, queue);
    EmitListsChildren(t, mode, render, before, log, queue);
    TaskListsAreExact(t, render, e.thisRun, e.log, c);
    forall q | q in e.thisRun && c.row.parentId == Some(q.nodeId)
      ensures ChildrenFiled(e.thisRun, q.nodeId) != []
    {
      ChildrenAreSelected(e.thisRun, q.nodeId);
      assert c in ChildrenFiled(e.thisRun, q.nodeId);
    }
  }

  // ----- which Parent lines survive -----

  function ParentLine(number: string): string { "Parent: #" + number + "\n\n" }

  predicate HasParentLine(body: string, number: string) { ParentLine(number) <= body }

  /** A goal that itself begins like a link. */
  predicate GoalSpellsLink(goal: string, number: string) { ParentLine(number) <= goal + "\n\n" }

  /** The last body the tracker accepted for a node: the accepted edit of its issue, or what it was created with. */
  function LastEdit(updates: seq<EpicUpdate>, id: string): Option<string> {
    if updates == [] then None
    else
      var u := updates[|updates| - 1];
      if u.nodeId == id && u.ok then Some(u.body) else LastEdit(updates[..|updates| - 1], id)
  }

  function BodyAfter(r: NodeResult, updates: seq<EpicUpdate>): string {
    match LastEdit(updates, r.nodeId) case None => r.sent.body case Some(body) => body
  }

  predicate EditAccepted(updates: seq<EpicUpdate>, id: string) {
    exists u :: u in updates && u.nodeId == id && u.ok
  }

  lemma {:induction false} LastEditIsAccepted(updates: seq<EpicUpdate>, id: string)
    ensures LastEdit(updates, id).Some? <==> EditAccepted(updates, id)
    ensures LastEdit(updates, id).Some? ==>
      exists u :: u in updates && u.nodeId == id && u.ok && u.body == LastEdit(updates, id).value
  {
    if updates != [] {
      var init, last := updates[..|updates| - 1], updates[|updates| - 1];
      assert updates == init + [last];
      LastEditIsAccepted(init, id);
    }
  }

  /** A body that starts with its goal starts with a Parent line only when the goal spells it. */
  lemma PlainBodyHasNoLink(goal: string, rest: string, number: string)
    requires AllDigits(number)
    ensures HasParentLine(goal + "\n\n" + rest, number) <==> GoalSpellsLink(goal, number)
  {
    var line, body := ParentLine(number), goal + "\n\n" + rest;
    var shown := "Parent: #" + number;
    assert line == shown + "\n\n" && forall i :: 0 <= i < |shown| ==> line[i] == shown[i] != '\n';
    assert body[|goal|] == '\n' && body[..|goal| + 2] == goal + "\n\n";
    if line <= body {
      assert forall i :: 0 <= i < |line| ==> line[i] == body[i];
      assert |shown| <= |goal|;
      assert line == body[..|line|] == (goal + "\n\n")[..|line|];
    }
    if line <= goal + "\n\n" {
      assert line == (goal + "\n\n")[..|line|] == body[..|line|];
    }
  }

  lemma CreatedBodyHasLink(body: string, number: string)
    ensures HasParentLine(LinkedBody(body, Some(number)), number)
  {
    assert LinkedBody(body, Some(number)) == ParentLine(number) + body;
  }

  lemma EditedBodyHasNoLink(render: Render, task: TaskContract, list: string, number: string)
    requires AllDigits(number)
    ensures HasParentLine(IssueBody(render, task) + SUB_ISSUES + list, number) <==> GoalSpellsLink(task.goal, number)
  {
    var rest := "---\n" + render(task) + SUB_ISSUES + list;
    assert IssueBody(render, task) + SUB_ISSUES + list == task.goal + "\n\n" + rest;
    PlainBodyHasNoLink(task.goal, rest, number);
  }

  lemma AcceptedBody(render: Render, thisRun: seq<FiledNode>, updates: seq<EpicUpdate>, n: NodeRow)
    returns (list: string)
    requires TaskListsOk(render, thisRun, updates) && LastEdit(updates, n.nodeId).Some?
    requires forall q :: q in thisRun && q.nodeId == n.nodeId ==> q.row == n.row
    ensures LastEdit(updates, n.nodeId).value == IssueBody(render, n.row.task) + SUB_ISSUES + list
  {
    LastEditIsAccepted(updates, n.nodeId);
    var u :| u in updates && u.nodeId == n.nodeId && u.ok && u.body == LastEdit(updates, n.nodeId).value;
    assert ListsSome(render, thisRun, u);
    var q :| q in thisRun && ListsChildren(render, thisRun, q, u);
    list := TaskList(ChildrenFiled(thisRun, q.nodeId));
  }

  /**
   * The Parent line a node was created with survives the emit exactly when the node's own issue was not edited: the
   * task list is appended to the body without the line. (Or when the goal happens to spell the line.)
   */
  lemma LinkSurvives(render: Render, thisRun: seq<FiledNode>, updates: seq<EpicUpdate>, n: NodeRow, r: NodeResult,
                     number: string)
    requires TaskListsOk(render, thisRun, updates) && AllDigits(number)
    requires forall q :: q in thisRun && q.nodeId == n.nodeId ==> q.row == n.row
    requires r.nodeId == n.nodeId && r.sent.body == LinkedBody(IssueBody(render, n.row.task), Some(number))
    ensures HasParentLine(BodyAfter(r, updates), number) <==>
      !EditAccepted(updates, n.nodeId) || GoalSpellsLink(n.row.task.goal, number)
  {
    LastEditIsAccepted(updates, n.nodeId);
    var edit := LastEdit(updates, n.nodeId);
    if edit.Some? {
      var list := AcceptedBody(render, thisRun, updates, n);
      EditedBodyHasNoLink(render, n.row.task, list, number);
    } else {
      CreatedBodyHasLink(IssueBody(render, n.row.task), number);
    }
  }

  /** A node is edited only when a child of it was filed in the same run. */
  lemma EditedHasChildren(render: Render, thisRun: seq<FiledNode>, updates: seq<EpicUpdate>, id: string)
    requires TaskListsOk(render, thisRun, updates)
    ensures ChildrenFiled(thisRun, id) == [] ==> !EditAccepted(updates, id)
  {
    if u :| u in updates && u.nodeId == id && u.ok {
      assert ListsSome(render, thisRun, u);
      var q :| q in thisRun && ListsChildren(render, thisRun, q, u);
    }
  }

  // ----- the same, read off the tracker's log -----

  function CreatedNumber(x: Exchange): Option<string> {
    if x.CreateCall? && x.createAnswer.Created? then IssueNumber(x.createAnswer.ref) else None
  }

  /** The body of issue `number` after the calls in the log: the last accepted edit, or what it was created with. */
  function BodyIn(log: Log, number: string): Option<string> {
    if log == [] then None
    else
      var x := log[|log| - 1];
      if x.EditCall? && x.ok && x.number == number then Some(x.body)
      else if CreatedNumber(x) == Some(number) then Some(x.input.body)
      else BodyIn(log[..|log| - 1], number)
  }

  /** A tracker's numbers identify its issues. */
  predicate DistinctNumbers(log: Log) {
    forall i, j :: 0 <= i < j < |log| && CreatedNumber(log[i]).Some? ==> CreatedNumber(log[i]) != CreatedNumber(log[j])
  }

  predicate HasNumber(log: Log, number: string) {
    exists i :: 0 <= i < |log| && CreatedNumber(log[i]) == Some(number)
  }

  lemma BodyInSnoc(log: Log, x: Exchange, number: string)
    ensures BodyIn(log + [x], number) ==
      if x.EditCall? && x.ok && x.number == number then Some(x.body)
      else if CreatedNumber(x) == Some(number) then Some(x.input.body)
      else BodyIn(log, number)
    ensures HasNumber(log + [x], number) <==> HasNumber(log, number) || CreatedNumber(x) == Some(number)
    ensures DistinctNumbers(log + [x]) ==>
      DistinctNumbers(log) && (CreatedNumber(x) == Some(number) ==> !HasNumber(log, number))
  {
    var after := log + [x];
    assert after[..|after| - 1] == log && after[|log|] == x && forall i :: 0 <= i < |log| ==> after[i] == log[i];
  }

  function FiledNumber(r: NodeResult): Option<string> {
    match r.outcome
    case FiledRecorded(ref) => IssueNumber(ref)
    case FiledUnrecorded(ref) => IssueNumber(ref)
    case _ => None
  }

  lemma CallNumber(r: NodeResult)
    requires ExecuteOutcome(r)
    ensures FiledNumber(r).Some? ==> CallOf(r) == [CreateCall(r.sent, AnswerOf(r.outcome))]
    ensures forall x :: x in CallOf(r) ==> !x.EditCall? && CreatedNumber(x) == FiledNumber(r)
  {}

  /** One more report row: what its call, if any, does to the body and the numbers of the log. */
  lemma CallOnLog(log: Log, r: NodeResult, number: string)
    requires ExecuteOutcome(r) && DistinctNumbers(log + CallOf(r))
    ensures DistinctNumbers(log)
    ensures BodyIn(log + CallOf(r), number) ==
      if FiledNumber(r) == Some(number) then Some(r.sent.body) else BodyIn(log, number)
    ensures HasNumber(log + CallOf(r), number) <==> HasNumber(log, number) || FiledNumber(r) == Some(number)
    ensures FiledNumber(r) == Some(number) ==> !HasNumber(log, number)
  {
    CallNumber(r);
    if CallOf(r) == [] {
      assert log + [] == log;
    } else {
      BodyInSnoc(log, CallOf(r)[0], number);
      assert CallOf(r)[0] in CallOf(r);
    }
  }

  /** How a report row leads to an issue number. */
  type Numbering = NodeResult -> Option<string>

  /** What the report rows make of a body that issue `number` had before. */
  function BodyFrom(of: Numbering, start: Option<string>, results: seq<NodeResult>, number: string): Option<string> {
    if results == [] then start
    else
      var r := results[|results| - 1];
      if of(r) == Some(number) then Some(r.sent.body) else BodyFrom(of, start, results[..|results| - 1], number)
  }

  predicate DistinctRows(of: Numbering, results: seq<NodeResult>) {
    forall i, j :: 0 <= i < j < |results| && of(results[i]).Some? ==> of(results[i]) != of(results[j])
  }

  predicate RowHas(of: Numbering, results: seq<NodeResult>, number: string) {
    exists i :: 0 <= i < |results| && of(results[i]) == Some(number)
  }

  lemma RowsSnoc(of: Numbering, init: seq<NodeResult>, last: NodeResult, number: string)
    ensures RowHas(of, init + [last], number) <==> RowHas(of, init, number) || of(last) == Some(number)
    ensures DistinctRows(of, init) && (of(last).Some? ==> !RowHas(of, init, of(last).value)) ==>
      DistinctRows(of, init + [last])
  {
    var all := init + [last];
    assert all[|init|] == last && forall i :: 0 <= i < |init| ==> all[i] == init[i];
  }

  /** With distinct numbers, the issue of a filed row has the body that was sent for that row. */
  lemma {:induction false} CreatedBody(
    of: Numbering, start: Option<string>, results: seq<NodeResult>, i: nat, number: string)
    requires DistinctRows(of, results) && i < |results| && of(results[i]) == Some(number)
    ensures BodyFrom(of, start, results, number) == Some(results[i].sent.body)
  {
    var init := results[..|results| - 1];
    if i < |init| {
      assert init[i] == results[i] && of(results[|results| - 1]) != Some(number);
      CreatedBody(of, start, init, i, number);
    }
  }

  lemma LogSnoc(log: Log, init: seq<NodeResult>, last: NodeResult)
    ensures log + Calls(init + [last]) == (log + Calls(init)) + CallOf(last)
  {
    CallsSnoc(init, last);
  }

  lemma {:induction false} RowsOnLog(log: Log, results: seq<NodeResult>, number: string)
    requires forall r :: r in results ==> ExecuteOutcome(r)
    requires DistinctNumbers(log + Calls(results))
    ensures BodyIn(log + Calls(results), number) == BodyFrom(FiledNumber, BodyIn(log, number), results, number)
    ensures RowHas(FiledNumber, results, number) ==> HasNumber(log + Calls(results), number)
    ensures DistinctRows(FiledNumber, results)
    decreases |results|
  {
    if results == [] {
      assert log + [] == log;
    } else {
      var init, last := results[..|results| - 1], results[|results| - 1];
      assert results == init + [last];
      LogSnoc(log, init, last);
      CallOnLog(log + Calls(init), last, number);
      RowsOnLog(log, init, number);
      RowsSnoc(FiledNumber, init, last, number);
      var own := FiledNumber(last);
      if own.Some? {
        CallOnLog(log + Calls(init), last, own.value);
        RowsOnLog(log, init, own.value);
      }
    }
  }

  function LastEditOf(updates: seq<EpicUpdate>, number: string): Option<string> {
    if updates == [] then None
    else
      var u := updates[|updates| - 1];
      if u.number == number && u.ok then Some(u.body) else LastEditOf(updates[..|updates| - 1], number)
  }

  lemma EditOnLog(log: Log, u: EpicUpdate, number: string)
    requires u.ok ==> ValidBody(u.body)
    ensures BodyIn(log + EditCallOf(u), number) ==
      if u.number == number && u.ok then Some(u.body) else BodyIn(log, number)
    ensures DistinctNumbers(log + EditCallOf(u)) ==> DistinctNumbers(log)
  {
    if ValidBody(u.body) {
      BodyInSnoc(log, EditCall(u.number, u.body, u.ok), number);
    } else {
      assert log + [] == log;
    }
  }

  lemma EditLogSnoc(log: Log, init: seq<EpicUpdate>, u: EpicUpdate)
    ensures log + EditCalls(init + [u]) == (log + EditCalls(init)) + EditCallOf(u)
  {
    EditCallsSnoc(init, u);
  }

  lemma {:induction false} EditsOnLog(log: Log, updates: seq<EpicUpdate>, number: string)
    requires forall u :: u in updates && u.ok ==> ValidBody(u.body)
    ensures BodyIn(log + EditCalls(updates), number) ==
      if LastEditOf(updates, number).Some? then LastEditOf(updates, number) else BodyIn(log, number)
    ensures DistinctNumbers(log + EditCalls(updates)) ==> DistinctNumbers(log)
  {
    if updates == [] {
      assert log + [] == log;
    } else {
      var init, u := updates[..|updates| - 1], updates[|updates| - 1];
      assert updates == init + [u];
      EditsOnLog(log, init, number);
      EditLogSnoc(log, init, u);
      EditOnLog(log + EditCalls(init), u, number);
    }
  }

  lemma {:induction false} SameEdits(updates: seq<EpicUpdate>, id: string, number: string)
    requires forall u :: u in updates ==> (u.number == number <==> u.nodeId == id)
    ensures LastEditOf(updates, number) == LastEdit(updates, id)
  {
    if updates != [] { SameEdits(updates[..|updates| - 1], id, number); }
  }

  // ----- one emit of a well-formed program -----

  /** A planned node's issue: how it was created, and whether its Parent line is still there after the emit. */
  ghost predicate RowLinked(
    render: Render, thisRun: seq<FiledNode>, n: NodeRow, r: NodeResult, updates: seq<EpicUpdate>, after: Rows)
  {
    var parent := LedgerParentNumber(after, n);
    && r.nodeId == n.nodeId
    && IssueReads(render, n, parent, r.sent)
    && (parent.Some? ==>
          (HasParentLine(BodyAfter(r, updates), parent.value) <==>
           !EditAccepted(updates, n.nodeId) || GoalSpellsLink(n.row.task.goal, parent.value)))
    && (EditAccepted(updates, n.nodeId) ==> ChildrenFiled(thisRun, n.nodeId) != [])
  }

  lemma ParentNumberIsDigits(rows: Rows, n: NodeRow)
    ensures LedgerParentNumber(rows, n).Some? ==> AllDigits(LedgerParentNumber(rows, n).value)
  {
    var parent := LedgerParentNumber(rows, n);
    if parent.Some? { NumberIsDigits(rows[n.row.parentId.value], parent.value); }
  }

  lemma FiledRow(before: Rows, after: Rows, thisRun: seq<FiledNode>, n: NodeRow)
    requires forall c :: c in thisRun ==> FiledFits(before, after, c)
    requires n.nodeId in before && before[n.nodeId] == n.row
    ensures forall q :: q in thisRun && q.nodeId == n.nodeId ==> q.row == n.row
  {}

  /**
   * Over any tracker behaviour, for every node of an emit: its issue is created with `Parent: #N` exactly when the
   * ledger holds a resolvable ref, numbered N, for its own parent, from this run or an earlier one; and the line
   * stays exactly when the tracker accepted no later edit that lists the node's children.
   */
  lemma EmitLinks(t: Oracle, mode: Mode, render: Render, pid: string, before: Rows, log: Log, i: nat)
    requires ProgramOk(pid, before) && i < |PlannedNodes(before)|
    ensures
      var queue := PlannedNodes(before);
      var e := EmitAll(t, mode, render, StartOf(before, log), queue);
      var epics := UpdateEpics(t, render, e.thisRun, e.log, e.thisRun);
      |e.results| == |queue| && RowLinked(render, e.thisRun, queue[i], e.results[i], epics.updates, e.rows)
  {
    var queue := PlannedNodes(before);
    var e := EmitAll(t, mode, render, StartOf(before, log), queue);
    var epics := UpdateEpics(t, render, e.thisRun, e.log, e.thisRun);
    PlannedIsAQueue(pid, before);
    LinksAreCorrect(t, mode, render, before, log, queue, i);
    EmitListsChildren(t, mode, render, before, log, queue);
    FiledRow(before, e.rows, e.thisRun, queue[i]);
    LinkedRow(render, e.thisRun, queue[i], e.results[i], epics.updates, e.rows);
  }

  lemma LinkedRow(
    render: Render, thisRun: seq<FiledNode>, n: NodeRow, r: NodeResult, updates: seq<EpicUpdate>, after: Rows)
    requires TaskListsOk(render, thisRun, updates) && r.nodeId == n.nodeId
    requires forall q :: q in thisRun && q.nodeId == n.nodeId ==> q.row == n.row
    requires r.sent == IssueFor(render, n, LedgerParentNumber(after, n))
    ensures RowLinked(render, thisRun, n, r, updates, after)
  {
    var parent := LedgerParentNumber(after, n);
    ParentNumberIsDigits(after, n);
    IssueInWords(render, n, parent);
    if parent.Some? { LinkSurvives(render, thisRun, updates, n, r, parent.value); }
    EditedHasChildren(render, thisRun, updates, n.nodeId);
  }

  /** Where numbers identify issues, an update is in the issue of exactly the node it is about. */
  lemma UpdateNumber(render: Render, queue: seq<NodeRow>, results: seq<NodeResult>, updates: seq<EpicUpdate>, i: nat,
                     number: string, u: EpicUpdate)
    requires |queue| == |results| && DistinctNodes(queue) && DistinctRows(FiledNumber, results)
    requires TaskListsOk(render, FiledOf(queue, results), updates) && u in updates
    requires i < |queue| && FiledNumber(results[i]) == Some(number)
    ensures u.number == number <==> u.nodeId == queue[i].nodeId
  {
    FiledAreReported(queue, results);
    var q := UpdatedNode(render, FiledOf(queue, results), updates, u);
    var j := FiledRowOf(queue, results, q);
    SameRow(queue, results, FiledNumber, i, j);
  }

  lemma UpdatedNode(render: Render, thisRun: seq<FiledNode>, updates: seq<EpicUpdate>, u: EpicUpdate)
    returns (q: FiledNode)
    requires TaskListsOk(render, thisRun, updates) && u in updates
    ensures q in thisRun && u.nodeId == q.nodeId && u.number == q.number
  {
    assert ListsSome(render, thisRun, u);
    q :| q in thisRun && ListsChildren(render, thisRun, q, u);
  }

  lemma FiledRowOf(queue: seq<NodeRow>, results: seq<NodeResult>, q: FiledNode) returns (j: nat)
    requires |queue| == |results| && Reported(queue, results, q)
    ensures j < |queue| && FiledNumber(results[j]) == Some(q.number) && queue[j].nodeId == q.nodeId
  {
    j :| 0 <= j < |queue| && FiledBy(results[j], queue[j]) == [q];
    FiledByNumber(results[j], queue[j], q);
  }

  lemma FiledByNumber(r: NodeResult, n: NodeRow, q: FiledNode)
    requires FiledBy(r, n) == [q]
    ensures FiledNumber(r) == Some(q.number) && n.nodeId == q.nodeId
  {
    assert FiledBy(r, n)[0] == q;
  }

  /** Distinct ids and distinct numbers: two rows share the one exactly when they share the other. */
  lemma SameRow(queue: seq<NodeRow>, results: seq<NodeResult>, of: Numbering, i: nat, j: nat)
    requires |queue| == |results| && DistinctNodes(queue) && DistinctRows(of, results)
    requires i < |queue| && j < |queue| && of(results[i]).Some?
    ensures of(results[j]) == of(results[i]) <==> queue[j].nodeId == queue[i].nodeId
  {}

  /** The calls of one execute-mode emit, in order: one for each valid issue, then one for each valid edit. */
  lemma EmitLog(t: Oracle, render: Render, before: Rows, log: Log, queue: seq<NodeRow>)
    requires IsQueue(before, queue)
    ensures
      var e := EmitAll(t, Execute, render, StartOf(before, log), queue);
      var epics := UpdateEpics(t, render, e.thisRun, e.log, e.thisRun);
      epics.log == (log + Calls(e.results)) + EditCalls(epics.updates)
  {
    ExecuteCalls(t, render, before, log, queue);
    var e := EmitAll(t, Execute, render, StartOf(before, log), queue);
    EditsAreLogged(t, render, e.thisRun, e.log, e.thisRun);
  }

  /**
   * Against a tracker whose numbers identify its issues, the body that the whole log of calls leaves in a filed node's
   * issue is the one `BodyAfter` gives.
   */
  lemma FinalBodyIsLogged(
    t: Oracle, render: Render, before: Rows, log: Log, queue: seq<NodeRow>, i: nat, number: string)
    requires IsQueue(before, queue) && i < |queue|
    requires
      var e := EmitAll(t, Execute, render, StartOf(before, log), queue);
      && |e.results| == |queue| && FiledNumber(e.results[i]) == Some(number)
      && DistinctNumbers(UpdateEpics(t, render, e.thisRun, e.log, e.thisRun).log)
    ensures
      var e := EmitAll(t, Execute, render, StartOf(before, log), queue);
      var epics := UpdateEpics(t, render, e.thisRun, e.log, e.thisRun);
      BodyIn(epics.log, number) == Some(BodyAfter(e.results[i], epics.updates))
  {
    var e := EmitAll(t, Execute, render, StartOf(before, log), queue);
    var epics := UpdateEpics(t, render, e.thisRun, e.log, e.thisRun);
    ExecuteCalls(t, render, before, log, queue);
    EmitIsTruthful(t, Execute, render, before, log, queue);
    EmitListsChildren(t, Execute, render, before, log, queue);
    EditsAreLogged(t, render, e.thisRun, e.log, e.thisRun);
    assert ResultFits(render, queue[i], e.results[i], e.rows);
    LoggedBody(render, log, queue, e.results, epics.updates, i, number);
  }

  lemma LoggedBody(render: Render, log: Log, queue: seq<NodeRow>, results: seq<NodeResult>, updates: seq<EpicUpdate>,
                   i: nat, number: string)
    requires |queue| == |results| && DistinctNodes(queue) && forall r :: r in results ==> ExecuteOutcome(r)
    requires TaskListsOk(render, FiledOf(queue, results), updates)
    requires forall u :: u in updates && u.ok ==> ValidBody(u.body)
    requires DistinctNumbers((log + Calls(results)) + EditCalls(updates))
    requires i < |queue| && FiledNumber(results[i]) == Some(number) && results[i].nodeId == queue[i].nodeId
    ensures BodyIn((log + Calls(results)) + EditCalls(updates), number) == Some(BodyAfter(results[i], updates))
  {
    EditsOnLog(log + Calls(results), updates, number);
    RowsOnLog(log, results, number);
    CreatedBody(FiledNumber, BodyIn(log, number), results, i, number);
    forall u | u in updates { UpdateNumber(render, queue, results, updates, i, number, u); }
    SameEdits(updates, queue[i].nodeId, number);
  }
}
