/** Which stored nodes a command line can name: ids grow with every decomposition, the length limit on ids does not. */
module Addressing {
  import opened Prelude
  import opened Text
  import opened Scrum
  import opened LedgerModel
  import opened LedgerCommands
  import opened LedgerRuns

  /** No command creates or changes a program whose id is over the limit. */
  lemma LongProgramIsRefused(env: Env, s: State, call: Call)
    requires |call.op.programId| > 256
    ensures Step(env, s, call) == s
  {}

  lemma {:induction false} ProgramIdsAreShort(env: Env, calls: seq<Call>, pid: string)
    requires ValidCalls(calls) && pid in Run(env, START, calls).world.ledger
    ensures |pid| <= 256
  {
    if calls != [] && |pid| > 256 {
      var init, last := calls[..|calls| - 1], calls[|calls| - 1];
      RunKeepsLedger(env, START, init);
      StepKeepsLedger(env, Run(env, START, init), last);
      if last.op.programId == pid { LongProgramIsRefused(env, Run(env, START, init), last); }
      ProgramIdsAreShort(env, init, pid);
    }
  }

  /** Some advance command moves the node. */
  ghost predicate CanAdvance(ledger: Ledger, pid: string, nid: string) {
    exists to, ref :: AdvanceOp(ledger, pid, nid, to, ref).Ok?
  }

  /** A command that names the node is refused for its id. */
  ghost predicate OutOfReach(ledger: Ledger, pid: string, nid: string) {
    && (forall to, ref :: AdvanceOp(ledger, pid, nid, to, ref) == Err(InputRejected))
    && forall stories :: DecomposeNodeOp(ledger, pid, nid, stories) == Err(InputRejected)
  }

  lemma ShortIdsAreKnown(ledger: Ledger, pid: string, nid: string, stories: seq<StorySpec>)
    requires |pid| <= 256 && |nid| <= 256 && pid in ledger && nid in ledger[pid].rows
    ensures DecomposeNodeOp(ledger, pid, nid, stories) != Err(InputRejected)
  {}

  /** A well-shaped ref moves any node that is not done yet. */
  lemma ShortIdsAdvance(ledger: Ledger, pid: string, nid: string, to: Rung, ref: string)
    requires |pid| <= 256 && |nid| <= 256 && pid in ledger && nid in ledger[pid].rows
    requires NextRung(ledger[pid].rows[nid].state) == Some(to) && GoodRef(ref)
    ensures AdvanceOp(ledger, pid, nid, to, Some(ref)).Ok?
  {
    TrimOfTrimmed(ref);
    AdvanceIsExact(ledger, pid, nid, to, Some(ref));
  }

  lemma NextExists(ledger: Ledger, pid: string, nid: string)
    requires |pid| <= 256 && |nid| <= 256 && pid in ledger && nid in ledger[pid].rows
    ensures CanAdvance(ledger, pid, nid) <==> ledger[pid].rows[nid].state != Done
  {
    var next := NextRung(ledger[pid].rows[nid].state);
    if next.Some? {
      DigitIsGood('1');
      ShortIdsAdvance(ledger, pid, nid, next.value, ['1']);
    } else {
      forall to, ref
        ensures !AdvanceOp(ledger, pid, nid, to, ref).Ok?
      {
        AdvanceIsExact(ledger, pid, nid, to, ref);
      }
    }
  }

  /** In a reachable ledger a stored node can be named exactly when its own id is within the limit. */
  lemma ReachIsLength(env: Env, s: State, pid: string, nid: string)
    requires Reachable(env, s) && pid in s.world.ledger && nid in s.world.ledger[pid].rows
    ensures OutOfReach(s.world.ledger, pid, nid) <==> |nid| > 256
    ensures
      CanAdvance(s.world.ledger, pid, nid) <==> |nid| <= 256 && s.world.ledger[pid].rows[nid].state != Done
  {
    var calls :| ValidCalls(calls) && Run(env, START, calls) == s;
    ProgramIdsAreShort(env, calls, pid);
    if |nid| <= 256 {
      ShortIdsAreKnown(s.world.ledger, pid, nid, []);
      NextExists(s.world.ledger, pid, nid);
    }
  }
}
