/**
 * Filing over whole runs, read off the tracker's log: which node every createIssue call was for, and what links remain.
 */
module FilingRuns {
  import opened LedgerModel
  import opened Tracker
  import opened Emission
  import opened EmissionLaws
  import opened EmitCommand
  import opened CommandLaws
  import opened LedgerRuns
  import opened LinkLaws

  // ----- the createIssue calls of a log -----

  /** The createIssue calls that reached the tracker, in order. */
  function CreateCalls(log: Log): Log {
    if log == [] then []
    else CreateCalls(log[..|log| - 1]) + (if log[|log| - 1].CreateCall? then [log[|log| - 1]] else [])
  }

  function CallsOf(filings: seq<Filing>): Log {
    seq(|filings|, i requires 0 <= i < |filings| => CreateCall(filings[i].sent, filings[i].answer))
  }

  /** The filings are the createIssue calls of the log, one for one. */
  predicate FilingsAreTheCalls(s: State) {
    CreateCalls(s.world.log) == CallsOf(s.filings)
  }

  lemma CreateCallsSnoc(log: Log, x: Exchange)
    ensures CreateCalls(log + [x]) == CreateCalls(log) + (if x.CreateCall? then [x] else [])
  {
    assert (log + [x])[..|log|] == log;
  }

  lemma {:induction false} CreateCallsConcat(a: Log, b: Log)
    ensures CreateCalls(a + b) == CreateCalls(a) + CreateCalls(b)
  {
    if b == [] {
      assert a + b == a;
    } else {
      var init, x := b[..|b| - 1], b[|b| - 1];
      CreateCallsConcat(a, init);
      CreateCallsSnoc(a + init, x);
      CreateCallsSnoc(init, x);
      assert a + b == (a + init) + [x] && b == init + [x];
    }
  }

  lemma {:induction false} EditsFileNothing(updates: seq<EpicUpdate>)
    ensures CreateCalls(EditCalls(updates)) == []
  {
    if updates != [] {
      var init, u := updates[..|updates| - 1], updates[|updates| - 1];
      EditsFileNothing(init);
      CreateCallsConcat(EditCalls(init), EditCallOf(u));
      CreateCallsSnoc([], EditCall(u.number, u.body, u.ok));
    }
  }

  lemma {:induction false} ReadsFileNothing(t: Oracle, log: Log, nodes: seq<NodeRow>)
    ensures CreateCalls(ReadAll(t, log, nodes).log) == CreateCalls(log)
  {
    if nodes != [] {
      var before := ReadAll(t, log, nodes[..|nodes| - 1]).log;
      ReadsFileNothing(t, log, nodes[..|nodes| - 1]);
      CreateCallsSnoc(before, ReadAll(t, log, nodes).log[|before|]);
    }
  }

  lemma RowCalls(pid: string, r: NodeResult)
    ensures CreateCalls(CallOf(r)) == CallsOf(FilingOf(pid, r))
  {
    CreateCallsSnoc([], CreateCall(r.sent, AnswerOf(r.outcome)));
    if ValidCreate(r.sent) {
      assert CallOf(r) == [] + [CreateCall(r.sent, AnswerOf(r.outcome))];
      assert FilingOf(pid, r) == [Filing(pid, r.nodeId, r.sent, AnswerOf(r.outcome), r.outcome.FiledRecorded?)];
    }
  }

  lemma CallsOfConcat(a: seq<Filing>, b: seq<Filing>)
    ensures CallsOf(a + b) == CallsOf(a) + CallsOf(b)
  {}

  /** The calls of a report are the calls of its filings. */
  lemma {:induction false} ReportCalls(pid: string, results: seq<NodeResult>)
    ensures CreateCalls(Calls(results)) == CallsOf(FilingsOf(pid, results))
  {
    if results != [] {
      var init, r := results[..|results| - 1], results[|results| - 1];
      ReportCalls(pid, init);
      CreateCallsConcat(Calls(init), CallOf(r));
      RowCalls(pid, r);
      CallsOfConcat(FilingsOf(pid, init), FilingOf(pid, r));
    }
  }

  // ----- one step -----

  lemma LoggedFilings(
    pid: string, log: Log, filings: seq<Filing>, results: seq<NodeResult>, updates: seq<EpicUpdate>)
    requires CreateCalls(log) == CallsOf(filings)
    ensures CreateCalls((log + Calls(results)) + EditCalls(updates)) == CallsOf(filings + FilingsOf(pid, results))
  {
    CreateCallsConcat(log + Calls(results), EditCalls(updates));
    CreateCallsConcat(log, Calls(results));
    EditsFileNothing(updates);
    ReportCalls(pid, results);
    CallsOfConcat(filings, FilingsOf(pid, results));
  }

  lemma ExecutedLog(t: Oracle, render: Render, w: World, pid: string, queue: seq<NodeRow>, filings: seq<Filing>)
    requires pid in w.ledger && IsQueue(w.ledger[pid].rows, queue) && CreateCalls(w.log) == CallsOf(filings)
    ensures
      var (after, report) := FileNodes(t, Execute, render, w, pid, queue);
      CreateCalls(after.log) == CallsOf(filings + ReportFilings(pid, report))
  {
    var report := FileNodes(t, Execute, render, w, pid, queue).1;
    EmitLog(t, render, w.ledger[pid].rows, w.log, queue);
    LoggedFilings(pid, w.log, filings, report.results, report.updates);
  }

  lemma DryLog(t: Oracle, render: Render, w: World, pid: string, queue: seq<NodeRow>, filings: seq<Filing>)
    requires pid in w.ledger && CreateCalls(w.log) == CallsOf(filings)
    ensures
      var (after, report) := FileNodes(t, DryRun, render, w, pid, queue);
      CreateCalls(after.log) == CallsOf(filings + ReportFilings(pid, report))
  {
    DryRunIsPure(t, render, w.ledger[pid].rows, w.log, queue);
    assert filings + [] == filings;
  }

  /** An execute-mode emit adds its filings to both; nothing else adds a createIssue call. */
  lemma EmitFiles(env: Env, s: State, call: Call)
    requires LedgerOk(s.world.ledger) && Files(env, s, call) && FilingsAreTheCalls(s)
    ensures FilingsAreTheCalls(Step(env, s, call))
  {
    var pid, queue := call.op.programId, PlannedNodes(s.world.ledger[call.op.programId].rows);
    FilesListing(env, s, call);
    if ModeOf(call) == Execute {
      PlannedIsAQueue(pid, s.world.ledger[pid].rows);
      ExecutedLog(env.tracker, env.render, s.world, pid, queue, s.filings);
    } else {
      DryLog(env.tracker, env.render, s.world, pid, queue, s.filings);
    }
  }

  lemma StepFiles(env: Env, s: State, call: Call)
    requires LedgerOk(s.world.ledger) && FilingsAreTheCalls(s)
    ensures FilingsAreTheCalls(Step(env, s, call))
  {
    if Files(env, s, call) {
      EmitFiles(env, s, call);
    } else if call.op.Emit? {
      NothingFiled(env, s, call);
    } else if call.op.Reconcile? {
      ReconcileReads(env, s, call);
    }
  }

  lemma ReconcileReads(env: Env, s: State, call: Call)
    requires call.op.Reconcile?
    ensures CreateCalls(Step(env, s, call).world.log) == CreateCalls(s.world.log)
    ensures Step(env, s, call).filings == s.filings
  {
    var pid := call.op.programId;
    if pid in s.world.ledger {
      ReadsFileNothing(env.tracker, s.world.log, EmittedNodes(s.world.ledger[pid].rows));
    }
  }

  // ----- whole runs -----

  /** Over any run, the createIssue calls in the tracker's log are the filings, in order. */
  lemma {:induction false} RunFilesWhatItLogs(env: Env, calls: seq<Call>)
    requires ValidCalls(calls)
    ensures FilingsAreTheCalls(Run(env, START, calls))
    ensures |CreateCalls(Run(env, START, calls).world.log)| == |Run(env, START, calls).filings|
  {
    if calls != [] {
      var init := calls[..|calls| - 1];
      RunFilesWhatItLogs(env, init);
      RunKeepsLedger(env, START, init);
      StepFiles(env, Run(env, START, init), calls[|calls| - 1]);
    }
  }

  // ----- only planned nodes are filed -----

  predicate IsPlanned(ledger: Ledger, pid: string, n: string) {
    pid in ledger && n in ledger[pid].rows && ledger[pid].rows[n].state == Planned
  }

  /** The call was for a planned node, with its stored title and labels. */
  predicate ForPlanned(ledger: Ledger, f: Filing) {
    && IsPlanned(ledger, f.programId, f.nodeId)
    && f.sent.title == ledger[f.programId].rows[f.nodeId].goal
    && f.sent.labels == ledger[f.programId].rows[f.nodeId].labels
  }

  /** The node is stored, and when its filing was recorded it has left planned. */
  predicate FilingHolds(ledger: Ledger, f: Filing) {
    && f.programId in ledger && f.nodeId in ledger[f.programId].rows
    && (f.recorded ==> ledger[f.programId].rows[f.nodeId].state != Planned && f.answer.Created?)
  }

  predicate SameNode(f: Filing, g: Filing) { f.programId == g.programId && f.nodeId == g.nodeId }

  /** What a report row of an emit says about the program before and after. */
  predicate RowFiles(before: Rows, after: Rows, r: NodeResult) {
    && r.nodeId in before && before[r.nodeId].state == Planned && r.nodeId in after
    && r.sent.title == before[r.nodeId].goal && r.sent.labels == before[r.nodeId].labels
    && (r.outcome.FiledRecorded? ==> after[r.nodeId].state == Emitted)
  }

  lemma EmitRows(t: Oracle, mode: Mode, render: Render, pid: string, before: Rows, log: Log)
    requires ProgramOk(pid, before)
    ensures
      var e := EmitAll(t, mode, render, StartOf(before, log), PlannedNodes(before));
      DistinctResults(e.results) && forall i :: 0 <= i < |e.results| ==> RowFiles(before, e.rows, e.results[i])
  {
    var queue := PlannedNodes(before);
    var e := EmitAll(t, mode, render, StartOf(before, log), queue);
    PlannedIsAQueue(pid, before);
    EmitIsTruthful(t, mode, render, before, log, queue);
    NewlyEmittedAreRecorded(render, before, queue, e);
    forall i | 0 <= i < |queue|
      ensures RowFiles(before, e.rows, e.results[i])
    {
      assert ResultFits(render, queue[i], e.results[i], e.rows);
      StateAfter(render, before, queue, e, i);
    }
  }

  predicate MirrorsSome(pid: string, results: seq<NodeResult>, f: Filing) {
    exists i :: 0 <= i < |results| && FilingOf(pid, results[i]) == [f]
  }

  /** The filings of one report, each of its own report row. */
  lemma {:induction false} FilingsMirrorResults(pid: string, results: seq<NodeResult>)
    requires DistinctResults(results)
    ensures forall f :: f in FilingsOf(pid, results) ==> MirrorsSome(pid, results, f)
    ensures forall i, j :: 0 <= i < j < |FilingsOf(pid, results)| ==>
      FilingsOf(pid, results)[i].nodeId != FilingsOf(pid, results)[j].nodeId
  {
    if results != [] {
      var init, last := results[..|results| - 1], results[|results| - 1];
      assert results == init + [last];
      FilingsMirrorResults(pid, init);
      forall f | f in FilingsOf(pid, results)
        ensures MirrorsSome(pid, results, f)
      {
        MirrorsSnoc(pid, init, last, f);
      }
      forall i | 0 <= i < |FilingsOf(pid, init)|
        ensures FilingsOf(pid, init)[i].nodeId != last.nodeId
      {
        assert MirrorsSome(pid, init, FilingsOf(pid, init)[i]);
        MirrorId(pid, init, last, FilingsOf(pid, init)[i]);
      }
    }
  }

  lemma MirrorsSnoc(pid: string, init: seq<NodeResult>, last: NodeResult, f: Filing)
    requires MirrorsSome(pid, init, f) || f in FilingOf(pid, last)
    ensures MirrorsSome(pid, init + [last], f)
  {
    var results := init + [last];
    assert results[|init|] == last && forall i :: 0 <= i < |init| ==> results[i] == init[i];
    if MirrorsSome(pid, init, f) {
      var i :| 0 <= i < |init| && FilingOf(pid, init[i]) == [f];
      assert FilingOf(pid, results[i]) == [f];
    } else {
      assert FilingOf(pid, results[|init|]) == [f];
    }
  }

  lemma MirrorId(pid: string, init: seq<NodeResult>, last: NodeResult, f: Filing)
    requires DistinctResults(init + [last]) && MirrorsSome(pid, init, f)
    ensures f.nodeId != last.nodeId
  {
    var results := init + [last];
    var i :| 0 <= i < |init| && FilingOf(pid, init[i]) == [f];
    assert FilingOf(pid, init[i])[0] == f;
    assert results[i] == init[i] && results[|init|] == last;
  }

  lemma FilingsHold(before: Ledger, pid: string, rows: Rows, results: seq<NodeResult>)
    requires pid in before && DistinctResults(results)
    requires forall i :: 0 <= i < |results| ==> RowFiles(before[pid].rows, rows, results[i])
    ensures forall f :: f in FilingsOf(pid, results) ==>
      ForPlanned(before, f) && FilingHolds(SetRows(before, pid, rows), f)
  {
    FilingsMirrorResults(pid, results);
    forall f | f in FilingsOf(pid, results)
      ensures ForPlanned(before, f) && FilingHolds(SetRows(before, pid, rows), f)
    {
      var i :| 0 <= i < |results| && FilingOf(pid, results[i]) == [f];
      FilingHoldsFor(before, pid, rows, results[i], f);
    }
  }

  lemma FilingHoldsFor(before: Ledger, pid: string, rows: Rows, r: NodeResult, f: Filing)
    requires pid in before && RowFiles(before[pid].rows, rows, r) && FilingOf(pid, r) == [f]
    ensures ForPlanned(before, f) && FilingHolds(SetRows(before, pid, rows), f)
  {
    assert FilingOf(pid, r)[0] == f;
  }

  predicate DistinctFilings(filings: seq<Filing>) {
    forall i, j :: 0 <= i < j < |filings| ==> !SameNode(filings[i], filings[j])
  }

  /** What one command adds to the filings: only calls for nodes that are planned when it starts, each node once. */
  ghost predicate StepAdds(before: State, after: State, more: seq<Filing>) {
    && after.filings == before.filings + more && DistinctFilings(more)
    && forall f :: f in more ==> ForPlanned(before.world.ledger, f) && FilingHolds(after.world.ledger, f)
  }

  lemma NewFilings(env: Env, s: State, call: Call) returns (more: seq<Filing>)
    requires LedgerOk(s.world.ledger)
    ensures StepAdds(s, Step(env, s, call), more)
  {
    more := [];
    assert s.filings + [] == s.filings;
    if Files(env, s, call) {
      var pid, rows := call.op.programId, s.world.ledger[call.op.programId].rows;
      var e := EmitAll(env.tracker, ModeOf(call), env.render, StartOf(rows, s.world.log), PlannedNodes(rows));
      FilesListing(env, s, call);
      EmitRows(env.tracker, ModeOf(call), env.render, pid, rows, s.world.log);
      FilingsHold(s.world.ledger, pid, e.rows, e.results);
      FilingsMirrorResults(pid, e.results);
      if ModeOf(call) == Execute { more := FilingsOf(pid, e.results); }
    } else if call.op.Emit? {
      NothingFiled(env, s, call);
    } else if call.op.Reconcile? {
      ReconcileReads(env, s, call);
    }
  }

  /** The part of a run before and after its last call, with what that call filed. */
  lemma LastCall(env: Env, calls: seq<Call>) returns (before: State, more: seq<Filing>)
    requires calls != [] && ValidCalls(calls)
    ensures before == Run(env, START, calls[..|calls| - 1]) && LedgerOk(before.world.ledger)
    ensures StepAdds(before, Run(env, START, calls), more)
    ensures LedgerEvolves(before.world.ledger, Run(env, START, calls).world.ledger)
  {
    before := Run(env, START, calls[..|calls| - 1]);
    RunKeepsLedger(env, START, calls[..|calls| - 1]);
    more := NewFilings(env, before, calls[|calls| - 1]);
    StepKeepsLedger(env, before, calls[|calls| - 1]);
    LedgerStepsEvolve(before.world.ledger, Run(env, START, calls).world.ledger);
  }

  /** The `i`-th filing of the run is made by its `k`-th command, for a node that is planned when that starts. */
  ghost predicate FiledAt(env: Env, calls: seq<Call>, i: nat, k: nat) {
    k < |calls|
    && FiledBetween(Run(env, START, calls[..k]), Run(env, START, calls[..k + 1]), Run(env, START, calls), i)
  }

  predicate FiledBetween(before: State, after: State, last: State, i: nat) {
    |before.filings| <= i < |after.filings| && i < |last.filings| && ForPlanned(before.world.ledger, last.filings[i])
  }

  lemma AddedIsPlanned(before: State, after: State, more: seq<Filing>, i: nat)
    requires StepAdds(before, after, more) && |before.filings| <= i < |after.filings|
    ensures FiledBetween(before, after, after, i)
  {
    assert after.filings[i] == more[i - |before.filings|];
  }

  lemma FiledEarlier(env: Env, calls: seq<Call>, i: nat, k: nat)
    requires ValidCalls(calls) && calls != [] && FiledAt(env, calls[..|calls| - 1], i, k)
    ensures FiledAt(env, calls, i, k)
  {
    var before, more := LastCall(env, calls);
    var init := calls[..|calls| - 1];
    assert init[..k] == calls[..k] && init[..k + 1] == calls[..k + 1];
    assert Run(env, START, calls).filings[i] == before.filings[i];
  }

  lemma FiledLast(env: Env, calls: seq<Call>, i: nat)
    requires ValidCalls(calls) && calls != [] && i < |Run(env, START, calls).filings|
    requires |Run(env, START, calls[..|calls| - 1]).filings| <= i
    ensures FiledAt(env, calls, i, |calls| - 1)
  {
    var before, more := LastCall(env, calls);
    assert calls[..|calls|] == calls;
    AddedIsPlanned(before, Run(env, START, calls), more, i);
  }

  lemma {:induction false} EveryFilingHasItsCall(env: Env, calls: seq<Call>, i: nat) returns (k: nat)
    requires ValidCalls(calls) && i < |Run(env, START, calls).filings|
    ensures FiledAt(env, calls, i, k)
  {
    if i < |Run(env, START, calls[..|calls| - 1]).filings| {
      k := EveryFilingHasItsCall(env, calls[..|calls| - 1], i);
      FiledEarlier(env, calls, i, k);
    } else {
      k := |calls| - 1;
      FiledLast(env, calls, i);
    }
  }

  /**
   * Over any run and any tracker, every createIssue call ever made, accepted or not, belongs to one command of the run,
   * and its node is planned when that command starts.
   */
  lemma OnlyPlannedNodesAreFiled(env: Env, calls: seq<Call>, i: nat) returns (k: nat)
    requires ValidCalls(calls) && i < |CreateCalls(Run(env, START, calls).world.log)|
    ensures |CreateCalls(Run(env, START, calls).world.log)| == |Run(env, START, calls).filings|
    ensures k < |calls|
    ensures |Run(env, START, calls[..k]).filings| <= i < |Run(env, START, calls[..k + 1]).filings|
    ensures ForPlanned(Run(env, START, calls[..k]).world.ledger, Run(env, START, calls).filings[i])
  {
    RunFilesWhatItLogs(env, calls);
    k := EveryFilingHasItsCall(env, calls, i);
  }

  lemma StartedStays(before: Ledger, after: Ledger, pid: string, n: string)
    requires LedgerEvolves(before, after) && pid in before && n in before[pid].rows && !IsPlanned(before, pid, n)
    ensures pid in after && n in after[pid].rows && !IsPlanned(after, pid, n)
  {
    assert RowEvolves(before[pid].rows[n], after[pid].rows[n]);
  }

  /** Once a node has left planned, by a recorded filing or by hand, no createIssue call is ever made for it again. */
  lemma {:induction false} StartedIsNeverFiled(env: Env, calls: seq<Call>, k: nat, pid: string, n: string, i: nat)
    requires ValidCalls(calls) && k <= |calls|
    requires
      var ledger := Run(env, START, calls[..k]).world.ledger;
      pid in ledger && n in ledger[pid].rows && !IsPlanned(ledger, pid, n)
    requires |Run(env, START, calls[..k]).filings| <= i < |CreateCalls(Run(env, START, calls).world.log)|
    ensures |CreateCalls(Run(env, START, calls).world.log)| == |Run(env, START, calls).filings|
    ensures
      var f := Run(env, START, calls).filings[i];
      !(f.programId == pid && f.nodeId == n)
  {
    RunFilesWhatItLogs(env, calls);
    var at := OnlyPlannedNodesAreFiled(env, calls, i);
    if at < k {
      FilingsGrow(env, calls, at + 1, k);
    } else {
      StillStarted(env, calls, k, at, pid, n);
    }
  }

  /** The `k`-th call of a run only adds filings and only evolves the ledger. */
  lemma CallAt(env: Env, calls: seq<Call>, k: nat)
    requires ValidCalls(calls) && k < |calls|
    ensures |Run(env, START, calls[..k]).filings| <= |Run(env, START, calls[..k + 1]).filings|
    ensures LedgerEvolves(Run(env, START, calls[..k]).world.ledger, Run(env, START, calls[..k + 1]).world.ledger)
  {
    var before, more := LastCall(env, calls[..k + 1]);
    assert calls[..k + 1][..k] == calls[..k];
  }

  lemma {:induction false} FilingsGrow(env: Env, calls: seq<Call>, a: nat, b: nat)
    requires ValidCalls(calls) && a <= b <= |calls|
    ensures |Run(env, START, calls[..a]).filings| <= |Run(env, START, calls[..b]).filings|
    decreases b - a
  {
    if a < b {
      FilingsGrow(env, calls, a, b - 1);
      CallAt(env, calls, b - 1);
    }
  }

  lemma {:induction false} StillStarted(env: Env, calls: seq<Call>, a: nat, b: nat, pid: string, n: string)
    requires ValidCalls(calls) && a <= b <= |calls|
    requires
      var ledger := Run(env, START, calls[..a]).world.ledger;
      pid in ledger && n in ledger[pid].rows && !IsPlanned(ledger, pid, n)
    ensures
      var ledger := Run(env, START, calls[..b]).world.ledger;
      pid in ledger && n in ledger[pid].rows && !IsPlanned(ledger, pid, n)
    decreases b - a
  {
    if a < b {
      StillStarted(env, calls, a, b - 1, pid, n);
      CallAt(env, calls, b - 1);
      StartedStays(Run(env, START, calls[..b - 1]).world.ledger, Run(env, START, calls[..b]).world.ledger, pid, n);
    }
  }

  // ----- no second filing -----

  predicate NoneRefiled(filings: seq<Filing>) {
    forall i, j :: 0 <= i < j < |filings| && SameNode(filings[i], filings[j]) ==> !filings[i].recorded
  }

  /** A recorded filing is its node's last one, and its node has left planned. */
  predicate FilingsOk(s: State) {
    NoneRefiled(s.filings) && forall f :: f in s.filings ==> FilingHolds(s.world.ledger, f)
  }

  lemma FilingPersists(before: Ledger, after: Ledger, f: Filing)
    requires LedgerEvolves(before, after) && FilingHolds(before, f)
    ensures FilingHolds(after, f)
  {
    assert RowEvolves(before[f.programId].rows[f.nodeId], after[f.programId].rows[f.nodeId]);
  }

  lemma AppendFilings(filings: seq<Filing>, more: seq<Filing>, before: Ledger)
    requires NoneRefiled(filings) && DistinctFilings(more)
    requires forall f :: f in filings ==> FilingHolds(before, f)
    requires forall f :: f in more ==> ForPlanned(before, f)
    ensures NoneRefiled(filings + more)
  {
    var all := filings + more;
    assert all[|filings|..] == more;
    forall i, j | 0 <= i < j < |all| && SameNode(all[i], all[j])
      ensures !all[i].recorded
    {
      if i < |filings| <= j {
        assert all[i] in filings && all[j] in more;
      } else if j < |filings| {
        assert all[i] == filings[i] && all[j] == filings[j];
      }
    }
  }

  lemma StepKeepsFilings(before: State, after: State, more: seq<Filing>)
    requires FilingsOk(before) && StepAdds(before, after, more)
    requires LedgerEvolves(before.world.ledger, after.world.ledger)
    ensures FilingsOk(after)
  {
    AppendFilings(before.filings, more, before.world.ledger);
    forall f | f in after.filings
      ensures FilingHolds(after.world.ledger, f)
    {
      if f in before.filings { FilingPersists(before.world.ledger, after.world.ledger, f); }
    }
  }

  lemma {:induction false} RunKeepsFilings(env: Env, calls: seq<Call>)
    requires ValidCalls(calls)
    ensures FilingsOk(Run(env, START, calls))
  {
    if calls != [] {
      RunKeepsFilings(env, calls[..|calls| - 1]);
      var before, more := LastCall(env, calls);
      StepKeepsFilings(before, Run(env, START, calls), more);
    }
  }

  /**
   * Over any run: when the ledger recorded the issue that the `i`-th createIssue call of the tracker's log made, no
   * later createIssue call in the log is for the same node.
   */
  lemma NoSecondFiling(env: Env, calls: seq<Call>, i: nat, j: nat)
    requires ValidCalls(calls) && i < j < |CreateCalls(Run(env, START, calls).world.log)|
    ensures
      var s := Run(env, START, calls);
      && |s.filings| == |CreateCalls(s.world.log)|
      && CreateCalls(s.world.log)[i] == CreateCall(s.filings[i].sent, s.filings[i].answer)
      && CreateCalls(s.world.log)[j] == CreateCall(s.filings[j].sent, s.filings[j].answer)
      && (s.filings[i].recorded ==> !SameNode(s.filings[i], s.filings[j]))
  {
    RunFilesWhatItLogs(env, calls);
    RunKeepsFilings(env, calls);
  }

  // ----- accounting -----

  function Count(filings: seq<Filing>, p: Filing -> bool): nat {
    if filings == [] then 0
    else Count(filings[..|filings| - 1], p) + (if p(filings[|filings| - 1]) then 1 else 0)
  }

  predicate Recorded(f: Filing) { f.recorded }

  predicate Unrecorded(f: Filing) { f.answer.Created? && !f.recorded }

  /** The nodes whose issue the ledger recorded. */
  function RecordedNodes(filings: seq<Filing>): set<(string, string)> {
    set i | 0 <= i < |filings| && filings[i].recorded :: (filings[i].programId, filings[i].nodeId)
  }

  lemma {:induction false} CreatedCallsCount(filings: seq<Filing>)
    requires forall f :: f in filings && f.recorded ==> f.answer.Created?
    ensures CreatedCalls(CallsOf(filings)) == Count(filings, Recorded) + Count(filings, Unrecorded)
  {
    if filings != [] {
      var init, f := filings[..|filings| - 1], filings[|filings| - 1];
      assert filings == init + [f];
      CreatedCallsCount(init);
      CallsOfConcat(init, [f]);
      CreatedCallsSnoc(CallsOf(init), CreateCall(f.sent, f.answer));
      assert CallsOf([f]) == [CreateCall(f.sent, f.answer)];
    }
  }

  lemma {:induction false} OnlyCreatesCount(log: Log)
    ensures CreatedCalls(CreateCalls(log)) == CreatedCalls(log)
  {
    if log != [] {
      var init, x := log[..|log| - 1], log[|log| - 1];
      OnlyCreatesCount(init);
      if x.CreateCall? {
        CreatedCallsSnoc(CreateCalls(init), x);
      } else {
        assert CreateCalls(init) + [] == CreateCalls(init);
      }
    }
  }

  lemma {:induction false} RecordedNodesCount(filings: seq<Filing>)
    requires NoneRefiled(filings)
    ensures |RecordedNodes(filings)| == Count(filings, Recorded)
  {
    if filings != [] {
      var init, f := filings[..|filings| - 1], filings[|filings| - 1];
      assert filings == init + [f];
      RecordedNodesCount(init);
      RecordedNodesSnoc(init, f);
    }
  }

  lemma RecordedNodesSnoc(init: seq<Filing>, f: Filing)
    requires NoneRefiled(init + [f])
    ensures
      var node := (f.programId, f.nodeId);
      && node !in RecordedNodes(init)
      && RecordedNodes(init + [f]) == RecordedNodes(init) + (if f.recorded then {node} else {})
  {
    var all := init + [f];
    assert all[|init|] == f && forall i :: 0 <= i < |init| ==> all[i] == init[i];
  }

  /**
   * Emission accounting over any run against any tracker: the successful createIssue calls in the log are as many as
   * the nodes whose issue was recorded, all of which left planned, plus the calls that were filed but not recorded.
   */
  lemma RunAccounting(env: Env, calls: seq<Call>)
    requires ValidCalls(calls)
    ensures
      var s := Run(env, START, calls);
      && CreatedCalls(s.world.log) == |RecordedNodes(s.filings)| + Count(s.filings, Unrecorded)
      && forall node :: node in RecordedNodes(s.filings) ==>
           && node.0 in s.world.ledger && node.1 in s.world.ledger[node.0].rows
           && !IsPlanned(s.world.ledger, node.0, node.1)
  {
    var s := Run(env, START, calls);
    RunFilesWhatItLogs(env, calls);
    RunKeepsFilings(env, calls);
    OnlyCreatesCount(s.world.log);
    CreatedCallsCount(s.filings);
    RecordedNodesCount(s.filings);
    forall node | node in RecordedNodes(s.filings)
      ensures node.0 in s.world.ledger && node.1 in s.world.ledger[node.0].rows
      ensures !IsPlanned(s.world.ledger, node.0, node.1)
    {
      var i :| 0 <= i < |s.filings| && s.filings[i].recorded && node == (s.filings[i].programId, s.filings[i].nodeId);
      assert s.filings[i] in s.filings;
    }
  }

  // ----- links in reachable ledgers -----

  /** An emit of any reachable ledger: every report row is linked as stated, and every task list is exact. */
  lemma LinksHoldEverywhere(env: Env, s: State, call: Call, i: nat)
    requires Reachable(env, s) && Files(env, s, call)
    requires i < |PlannedNodes(s.world.ledger[call.op.programId].rows)|
    ensures
      var pid, after := call.op.programId, Step(env, s, call);
      var queue, report := PlannedNodes(s.world.ledger[pid].rows), FilingRun(env, s, call).1;
      && pid in after.world.ledger && |report.results| == |queue|
      && var thisRun := FiledOf(queue, report.results);
         && (ModeOf(call) == Execute ==>
               && RowLinked(env.render, thisRun, queue[i], report.results[i], report.updates,
                            after.world.ledger[pid].rows)
               && TaskListsOk(env.render, thisRun, report.updates)
               && after.world.log == (s.world.log + Calls(report.results)) + EditCalls(report.updates))
  {
    ReachableIsOk(env, s);
    FilesListing(env, s, call);
    var pid := call.op.programId;
    var rows, log, queue := s.world.ledger[pid].rows, s.world.log, PlannedNodes(s.world.ledger[pid].rows);
    PlannedIsAQueue(pid, rows);
    EmitIsTruthful(env.tracker, ModeOf(call), env.render, rows, log, queue);
    if ModeOf(call) == Execute {
      EmitLinks(env.tracker, Execute, env.render, pid, rows, log, i);
      EmitListsChildren(env.tracker, Execute, env.render, rows, log, queue);
      EmitLog(env.tracker, env.render, rows, log, queue);
    }
  }
}
