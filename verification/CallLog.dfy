/** The tracker's log of calls over whole runs: who made each call, what was sent, and whose answer it holds. */
module CallLog {
  import opened Prelude
  import opened StoryLaws
  import opened LedgerModel
  import opened Tracker
  import opened Emission
  import opened EmissionLaws
  import opened EmitCommand
  import opened CommandLaws
  import opened LedgerRuns
  import opened LinkLaws

  // ----- what a log entry holds -----

  predicate IssueText(input: CreateInput) {
    && 1 <= |input.title| <= 256 && |input.body| <= 65536 && |input.labels| <= 20
    && forall text :: text in input.labels ==> LabelText(text)
  }

  /** The answer is the tracker's own at that point, and what was sent is within the provider's limits. */
  predicate EntryOk(t: Oracle, before: Log, x: Exchange) {
    match x
    case CreateCall(input, answer) => answer == t.create(before, input) && IssueText(input)
    case EditCall(number, body, ok) => ok == t.edit(before, number, body) && 1 <= |body| <= 65536
    case ReadCall(ref, answer) => answer == t.read(before, ref)
  }

  ghost predicate LogOk(t: Oracle, log: Log) {
    forall k :: 0 <= k < |log| ==> EntryOk(t, log[..k], log[k])
  }

  lemma LogSnoc(t: Oracle, log: Log, x: Exchange)
    requires LogOk(t, log) && EntryOk(t, log, x)
    ensures LogOk(t, log + [x])
  {
    var after := log + [x];
    forall k | 0 <= k < |after|
      ensures EntryOk(t, after[..k], after[k])
    {
      if k < |log| {
        assert after[..k] == log[..k] && after[k] == log[k];
      } else {
        assert after[..k] == log;
      }
    }
  }

  /** The provider refuses exactly the issues that break one of its limits. */
  lemma ValidIsText(input: CreateInput)
    ensures ValidCreate(input) <==> IssueText(input)
  {
    forall text { LabelIsText(text); }
  }

  /** A valid issue is created, or only proposed in a dry run; an invalid one is refused unseen. */
  lemma CreateInWords(t: Oracle, mode: Mode, log: Log, input: CreateInput)
    ensures CreateIssue(t, mode, log, input) ==
      if !IssueText(input) then (CreateFailed, log)
      else if mode == DryRun then (Created("dry-run://no-mutation"), log)
      else (t.create(log, input), log + [CreateCall(input, t.create(log, input))])
  {
    ValidIsText(input);
  }

  lemma EditInWords(t: Oracle, log: Log, number: string, body: string)
    ensures EditBody(t, log, number, body) ==
      if body == "" || |body| > 65536 then (false, log)
      else (t.edit(log, number, body), log + [EditCall(number, body, t.edit(log, number, body))])
  {}

  // ----- one emit, one reconcile -----

  lemma CreateIsLogged(t: Oracle, mode: Mode, log: Log, input: CreateInput)
    requires LogOk(t, log)
    ensures LogOk(t, CreateIssue(t, mode, log, input).1)
    ensures IssueText(input) && mode == Execute ==>
      CreateIssue(t, mode, log, input).1 == log + [CreateCall(input, t.create(log, input))]
  {
    CreateInWords(t, mode, log, input);
    if IssueText(input) { LogSnoc(t, log, CreateCall(input, t.create(log, input))); }
  }

  lemma StepIsLogged(t: Oracle, mode: Mode, render: Render, e: Emission, n: NodeRow)
    requires LogOk(t, e.log)
    ensures LogOk(t, EmitOne(t, mode, render, e, n).log)
  {
    CreateIsLogged(t, mode, e.log, IssueFor(render, n, ParentNumber(e.filed, n)));
  }

  lemma {:induction false} EmitIsLogged(t: Oracle, mode: Mode, render: Render, start: Emission, queue: seq<NodeRow>)
    requires LogOk(t, start.log)
    ensures LogOk(t, EmitAll(t, mode, render, start, queue).log)
  {
    if queue != [] {
      var init := queue[..|queue| - 1];
      EmitIsLogged(t, mode, render, start, init);
      StepIsLogged(t, mode, render, EmitAll(t, mode, render, start, init), queue[|queue| - 1]);
    }
  }

  lemma EditIsLogged(t: Oracle, render: Render, thisRun: seq<FiledNode>, acc: EpicRun, parent: FiledNode)
    requires LogOk(t, acc.log)
    ensures LogOk(t, UpdateOne(t, render, thisRun, acc, parent).log)
  {
    var body := EpicBody(IssueBody(render, parent.row.task), Numbers(ChildrenFiled(thisRun, parent.nodeId)));
    if body.Some? && ValidBody(body.value) {
      LogSnoc(t, acc.log, EditCall(parent.number, body.value, t.edit(acc.log, parent.number, body.value)));
    }
  }

  lemma {:induction false} EditsAreAnswered(
    t: Oracle, render: Render, thisRun: seq<FiledNode>, log: Log, parents: seq<FiledNode>)
    requires LogOk(t, log)
    ensures LogOk(t, UpdateEpics(t, render, thisRun, log, parents).log)
  {
    if parents != [] {
      var init := parents[..|parents| - 1];
      EditsAreAnswered(t, render, thisRun, log, init);
      EditIsLogged(t, render, thisRun, UpdateEpics(t, render, thisRun, log, init), parents[|parents| - 1]);
    }
  }

  lemma {:induction false} ReadsAreAnswered(t: Oracle, log: Log, nodes: seq<NodeRow>)
    requires LogOk(t, log)
    ensures LogOk(t, ReadAll(t, log, nodes).log)
    ensures log <= ReadAll(t, log, nodes).log
    ensures forall i :: |log| <= i < |ReadAll(t, log, nodes).log| ==> ReadAll(t, log, nodes).log[i].ReadCall?
  {
    if nodes != [] {
      var run, last := ReadAll(t, log, nodes[..|nodes| - 1]), nodes[|nodes| - 1];
      ReadsAreAnswered(t, log, nodes[..|nodes| - 1]);
      LogSnoc(t, run.log, ReadCall(RefOf(last), t.read(run.log, RefOf(last))));
    }
  }

  // ----- who may write -----

  predicate IsWrite(x: Exchange) { x.CreateCall? || x.EditCall? }

  /** What one command adds to the log: only an enforced emit creates or edits, and every answer is the tracker's. */
  ghost predicate LogStep(t: Oracle, call: Call, before: Log, after: Log) {
    && before <= after && LogOk(t, after)
    && forall i :: |before| <= i < |after| && IsWrite(after[i]) ==>
         call.op.Emit? && call.op.execute && call.cfg.tracker == Some(EnforceWrites)
  }

  lemma QuietStep(t: Oracle, call: Call, log: Log)
    requires LogOk(t, log)
    ensures LogStep(t, call, log, log)
  {}

  lemma ExecutedLogs(t: Oracle, render: Render, w: World, pid: string, queue: seq<NodeRow>)
    requires pid in w.ledger && IsQueue(w.ledger[pid].rows, queue) && LogOk(t, w.log)
    ensures
      var after := FileNodes(t, Execute, render, w, pid, queue).0.log;
      w.log <= after && LogOk(t, after)
  {
    var start := StartOf(w.ledger[pid].rows, w.log);
    var e := EmitAll(t, Execute, render, start, queue);
    EmitIsLogged(t, Execute, render, start, queue);
    EditsAreAnswered(t, render, e.thisRun, e.log, e.thisRun);
    EmitLog(t, render, w.ledger[pid].rows, w.log, queue);
  }

  lemma EmitLogStep(env: Env, s: State, call: Call)
    requires LedgerOk(s.world.ledger) && LogOk(env.tracker, s.world.log) && Files(env, s, call)
    ensures LogStep(env.tracker, call, s.world.log, Step(env, s, call).world.log)
  {
    var pid, queue := call.op.programId, PlannedNodes(s.world.ledger[call.op.programId].rows);
    FilesListing(env, s, call);
    if MayWrite(call.cfg, call.op.execute) {
      PlannedIsAQueue(pid, s.world.ledger[pid].rows);
      ExecutedLogs(env.tracker, env.render, s.world, pid, queue);
    } else {
      DryRunIsPure(env.tracker, env.render, s.world.ledger[pid].rows, s.world.log, queue);
    }
  }

  lemma ReconcileLogStep(env: Env, s: State, call: Call)
    requires LogOk(env.tracker, s.world.log) && call.op.Reconcile?
    ensures LogStep(env.tracker, call, s.world.log, Step(env, s, call).world.log)
  {
    var pid := call.op.programId;
    if pid in s.world.ledger {
      ReadsAreAnswered(env.tracker, s.world.log, EmittedNodes(s.world.ledger[pid].rows));
    }
  }

  lemma StepLogs(env: Env, s: State, call: Call)
    requires LedgerOk(s.world.ledger) && LogOk(env.tracker, s.world.log)
    ensures LogStep(env.tracker, call, s.world.log, Step(env, s, call).world.log)
  {
    QuietStep(env.tracker, call, s.world.log);
    if Files(env, s, call) {
      EmitLogStep(env, s, call);
    } else if call.op.Emit? {
      NothingFiled(env, s, call);
    } else if call.op.Reconcile? {
      ReconcileLogStep(env, s, call);
    }
  }

  /**
   * Over any run against any tracker, every entry of the log holds the tracker's own answer at that point, and every
   * issue created or edited was within the provider's limits.
   */
  lemma {:induction false} LogIsTruthful(env: Env, calls: seq<Call>)
    requires ValidCalls(calls)
    ensures LogOk(env.tracker, Run(env, START, calls).world.log)
  {
    if calls != [] {
      var init := calls[..|calls| - 1];
      LogIsTruthful(env, init);
      RunKeepsLedger(env, START, init);
      StepLogs(env, Run(env, START, init), calls[|calls| - 1]);
    }
  }

  /** The `i`-th entry of the log is made by the `k`-th command of the run. */
  ghost predicate LoggedBy(env: Env, calls: seq<Call>, i: nat, k: nat) {
    && k < |calls|
    && |Run(env, START, calls[..k]).world.log| <= i < |Run(env, START, calls[..k + 1]).world.log|
  }

  lemma LastLogs(env: Env, calls: seq<Call>) returns (before: Log)
    requires ValidCalls(calls) && calls != []
    ensures before == Run(env, START, calls[..|calls| - 1]).world.log
    ensures LogStep(env.tracker, calls[|calls| - 1], before, Run(env, START, calls).world.log)
  {
    var init := calls[..|calls| - 1];
    before := Run(env, START, init).world.log;
    LogIsTruthful(env, init);
    RunKeepsLedger(env, START, init);
    StepLogs(env, Run(env, START, init), calls[|calls| - 1]);
  }

  /**
   * Over any run, every issue ever created or edited was written by an emit that was asked to execute, under an overlay
   * at the enforce tier.
   */
  lemma {:induction false} WritesAreEnforced(env: Env, calls: seq<Call>, i: nat) returns (k: nat)
    requires ValidCalls(calls) && i < |Run(env, START, calls).world.log|
    ensures LoggedBy(env, calls, i, k)
    ensures IsWrite(Run(env, START, calls).world.log[i]) ==>
      calls[k].op.Emit? && calls[k].op.execute && calls[k].cfg.tracker == Some(EnforceWrites)
  {
    var before := LastLogs(env, calls);
    assert calls[..|calls|] == calls;
    if i < |before| {
      var init := calls[..|calls| - 1];
      k := WritesAreEnforced(env, init, i);
      assert init[..k] == calls[..k] && init[..k + 1] == calls[..k + 1];
    } else {
      k := |calls| - 1;
    }
  }
}
