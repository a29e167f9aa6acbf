/** The memory database: two tables written in place, an import that writes all of a document or none of it. */
module Memory {
  import opened Prelude
  import opened Text
  import opened MemoryModel
  import Laws = MemoryLaws

  class Memory {
    var facts: Table<Fact>
    var traces: Table<Trace>

    ghost function Contents(): Db
      reads this
    {
      Db(facts, traces)
    }

    ghost predicate Valid()
      reads this
    {
      DbOk(Contents())
    }

    constructor ()
      ensures Valid() && Contents() == EMPTY_DB
    {
      facts, traces := Empty(), Empty();
    }

    /** Write or refresh a fact: a known one keeps its place, its birth date and, when none is given, its confidence. */
    method RememberFact(now: nat, input: FactInput) returns (r: Result<Fact, MemoryError>)
      requires Valid()
      modifies `facts
      ensures Valid()
      ensures match Remember(old(facts), now, input)
              case Err(error) => r == Err(error) && facts == old(facts)
              case Ok(t) => facts == t && r == Ok(t.rows[input.fact])
    {
      ghost var outcome := Remember(facts, now, input);
      RememberUnfolds(facts, now, input);
      if outcome.Ok? { Laws.RememberKeeps(facts, now, input); }
      if input.fact == "" || (input.confidence.Some? && !(0.0 <= input.confidence.value <= 1.0)) {
        return Err(InvalidFact);
      }
      if input.provenance.None? || Trim(input.provenance.value) == "" {
        return Err(ProvenanceRequired);
      }
      if input.fact in facts.rows {
        var row := facts.rows[input.fact];
        var confidence := if input.confidence.Some? then input.confidence else row.confidence;
        facts := facts.(rows := facts.rows[input.fact :=
          row.(fact := input.fact, provenance := input.provenance.value, confidence := confidence,
               refreshedAt := now)]);
      } else {
        var row := Fact(input.fact, input.provenance.value, input.confidence, now, now);
        facts := Table(facts.keys + [input.fact], facts.rows[input.fact := row]);
      }
      assert facts == outcome.value;
      r := Ok(facts.rows[input.fact]);
    }

    /** One summary for each task: recording an outcome again replaces it in place. */
    method RecordOutcome(now: nat, o: Outcome, summary: string) returns (r: Result<Trace, MemoryError>)
      requires Valid()
      modifies `traces
      ensures Valid()
      ensures match Record(old(traces), now, o, summary)
              case Err(error) => r == Err(error) && traces == old(traces)
              case Ok(t) => traces == t && r == Ok(t.rows[o.taskId])
    {
      ghost var before := traces;
      if o.taskId == "" || o.traceRef == "" || "" in o.distillCandidates { return Err(InvalidOutcome); }
      var row := Trace(o.taskId, summary, o.traceRef, o.status, o.distillCandidates, now);
      if o.taskId !in traces.rows {
        traces := traces.(keys := traces.keys + [o.taskId]);
      }
      traces := traces.(rows := traces.rows[o.taskId := row]);
      Laws.RecordKeeps(before, now, o, summary);
      r := Ok(row);
    }

    method ExportMemory() returns (doc: Document)
      requires Valid()
      ensures doc == Export(Contents())
      ensures Import(EMPTY_DB, doc) == Ok(Contents())
    {
      doc := Document(Rows(facts), Rows(traces));
      Laws.RoundTrip(Contents());
    }

    method ImportFact(e: Fact) returns (r: Result<(), MemoryError>)
      requires Valid()
      modifies `facts
      ensures match MemoryModel.ImportFact(old(facts), e)
              case Err(error) => r == Err(error) && facts == old(facts)
              case Ok(t) => facts == t && r == Ok(())
      ensures Valid()
    {
      ghost var before := facts;
      var written := RememberFact(e.refreshedAt, FactInput(e.fact, Some(e.provenance), e.confidence));
      if written.Err? { return Err(written.error); }
      facts := facts.(rows := facts.rows[e.fact := facts.rows[e.fact].(createdAt := e.createdAt)]);
      Laws.ImportFactKeeps(before, e);
      r := Ok(());
    }

    /** The first half of an import's transaction: on a refused fact the rows before it have been written. */
    method ImportAllFacts(es: seq<Fact>) returns (r: Result<(), MemoryError>)
      requires Valid()
      modifies `facts
      ensures match ImportFacts(old(facts), es)
              case Err(error) => r == Err(error)
              case Ok(t) => r == Ok(()) && facts == t && Valid()
    {
      ghost var start := facts;
      for i := 0 to |es|
        invariant Valid() && ImportFacts(start, es[..i]) == Ok(facts)
      {
        ghost var before := facts;
        var one := ImportFact(es[i]);
        if one.Err? {
          FactRefused(start, es, i, before, one.error);
          return one;
        }
        FactWritten(start, es, i, before, facts);
      }
      assert es[..|es|] == es;
      r := Ok(());
    }

    method ImportAllTraces(es: seq<Trace>) returns (r: Result<(), MemoryError>)
      requires Valid()
      modifies `traces
      ensures match ImportTraces(old(traces), es)
              case Err(error) => r == Err(error)
              case Ok(t) => r == Ok(()) && traces == t && Valid()
    {
      ghost var start := traces;
      for i := 0 to |es|
        invariant Valid() && ImportTraces(start, es[..i]) == Ok(traces)
      {
        ghost var before := traces;
        var e := es[i];
        var one := RecordOutcome(e.createdAt, Outcome(e.taskId, e.status, e.traceRef, e.distillCandidates), e.summary);
        if one.Err? {
          TraceRefused(start, es, i);
          return Err(one.error);
        }
        TraceWritten(start, es, i, before, traces);
      }
      assert es[..|es|] == es;
      r := Ok(());
    }

    /** All or nothing: an entry that is refused puts both tables back as they were. */
    method ImportMemory(doc: Document) returns (r: Result<(nat, nat), MemoryError>)
      requires Valid()
      modifies this
      ensures Valid()
      ensures match Import(old(Contents()), doc)
              case Err(error) => r == Err(error) && Contents() == old(Contents())
              case Ok(db) => Contents() == db && r == Ok((|doc.facts|, |doc.traces|))
    {
      if !DocumentOk(doc) { return Err(MalformedDocument); }
      var factsBefore, tracesBefore := facts, traces;
      var written := ImportAllFacts(doc.facts);
      if written.Ok? { written := ImportAllTraces(doc.traces); }
      if written.Err? {
        facts, traces := factsBefore, tracesBefore;
        return Err(written.error);
      }
      r := Ok((|doc.facts|, |doc.traces|));
    }
  }

  lemma FactWritten(t: Table<Fact>, es: seq<Fact>, i: nat, before: Table<Fact>, after: Table<Fact>)
    requires i < |es| && ImportFacts(t, es[..i]) == Ok(before) && MemoryModel.ImportFact(before, es[i]) == Ok(after)
    ensures ImportFacts(t, es[..i + 1]) == Ok(after)
  {
    PrefixGrows(es, i);
    Laws.ImportFactsSnoc(t, es[..i], es[i], before, after);
  }

  lemma PrefixGrows<R>(s: seq<R>, i: nat)
    requires i < |s|
    ensures s[..i + 1] == s[..i] + [s[i]]
  {}

  lemma TraceWritten(t: Table<Trace>, es: seq<Trace>, i: nat, before: Table<Trace>, after: Table<Trace>)
    requires i < |es| && ImportTraces(t, es[..i]) == Ok(before) && ImportTrace(before, es[i]) == Ok(after)
    ensures ImportTraces(t, es[..i + 1]) == Ok(after)
  {
    assert es[..i + 1][..i] == es[..i];
  }

  lemma TraceRefused(t: Table<Trace>, es: seq<Trace>, i: nat)
    requires i < |es| && !TraceOk(es[i])
    ensures ImportTraces(t, es) == Err(InvalidOutcome)
  {
    Laws.TracesAccepted(t, es);
  }

  /** What a write comes to, case by case. */
  lemma RememberUnfolds(facts: Table<Fact>, now: nat, input: FactInput)
    ensures input.fact == "" || !ConfidenceOk(input.confidence) ==> Remember(facts, now, input) == Err(InvalidFact)
    ensures
      var sourced := input.provenance.Some? && Trim(input.provenance.value) != "";
      input.fact != "" && ConfidenceOk(input.confidence) ==>
        if sourced then
          var row := Refreshed(Find(facts, input.fact), now, input.fact, input.provenance.value, input.confidence);
          Remember(facts, now, input) == Ok(Upsert(facts, input.fact, row))
        else Remember(facts, now, input) == Err(ProvenanceRequired)
  {}

  /** The error of the first refused fact is the error of the whole list. */
  lemma {:induction false} FactRefused(t: Table<Fact>, es: seq<Fact>, i: nat, before: Table<Fact>, error: MemoryError)
    requires i < |es| && ImportFacts(t, es[..i]) == Ok(before) && MemoryModel.ImportFact(before, es[i]) == Err(error)
    ensures ImportFacts(t, es) == Err(error)
  {
    if |es| == i + 1 {
      assert es[..|es| - 1] == es[..i];
    } else {
      var init := es[..|es| - 1];
      assert init[..i] == es[..i];
      FactRefused(t, init, i, before, error);
    }
  }
}
