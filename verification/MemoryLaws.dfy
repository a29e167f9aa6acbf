/** What an export and its import guarantee: a faithful copy, repeatability, and when an import is refused. */
module MemoryLaws {
  import opened Prelude
  import opened Text
  import opened MemoryModel

  lemma UpsertKeepsTable<R>(t: Table<R>, k: string, row: R)
    requires TableOk(t)
    ensures TableOk(Upsert(t, k, row))
  {}

  lemma UpsertKeepsFacts(t: Table<Fact>, row: Fact)
    requires FactsOk(t) && FactOk(row)
    ensures FactsOk(Upsert(t, row.fact, row))
  {
    UpsertKeepsTable(t, row.fact, row);
  }

  /** Writing a fact keeps the tables well formed. */
  lemma RememberKeeps(facts: Table<Fact>, now: nat, input: FactInput)
    requires FactsOk(facts) && Remember(facts, now, input).Ok?
    ensures FactsOk(Remember(facts, now, input).value)
  {
    var held := Find(facts, input.fact);
    assert held.Some? ==> FactOk(held.value);
    var row := Refreshed(held, now, input.fact, input.provenance.value, input.confidence);
    RefreshedIsOk(held, row, now, input.provenance.value, input.confidence);
    UpsertKeepsFacts(facts, row);
  }

  lemma RefreshedIsOk(held: Option<Fact>, row: Fact, now: nat, provenance: string, confidence: Option<real>)
    requires held.Some? ==> FactOk(held.value)
    requires row.fact != "" && Trim(provenance) != "" && ConfidenceOk(confidence)
    requires row == Refreshed(held, now, row.fact, provenance, confidence)
    ensures FactOk(row)
  {}

  /**
   * Remembering a fact again never duplicates it: the row keeps its place and birth date, takes the new provenance,
   * restarts the decay clock and keeps its confidence unless a new one is given. No other row changes.
   */
  lemma RememberRefreshes(facts: Table<Fact>, now: nat, input: FactInput)
    requires TableOk(facts) && Remember(facts, now, input).Ok?
    ensures
      var after := Remember(facts, now, input).value;
      && after.keys == (if input.fact in facts.keys then facts.keys else facts.keys + [input.fact])
      && (forall k :: k != input.fact ==> Find(after, k) == Find(facts, k))
      && input.fact in after.rows && input.provenance.Some?
      && var row := after.rows[input.fact];
         && row.fact == input.fact && row.provenance == input.provenance.value && row.refreshedAt == now
         && (input.confidence.Some? ==> row.confidence == input.confidence)
         && (input.fact in facts.rows ==>
               row.createdAt == facts.rows[input.fact].createdAt
               && (input.confidence.None? ==> row.confidence == facts.rows[input.fact].confidence))
         && (input.fact !in facts.rows ==> row.createdAt == now && (input.confidence.None? ==> row.confidence.None?))
  {
    UpsertFinds(facts, input.fact,
                Refreshed(Find(facts, input.fact), now, input.fact, input.provenance.value, input.confidence));
  }

  lemma RecordKeeps(traces: Table<Trace>, now: nat, o: Outcome, summary: string)
    requires TracesOk(traces) && Record(traces, now, o, summary).Ok?
    ensures TracesOk(Record(traces, now, o, summary).value)
  {}

  /** An imported fact replaces the row of its key, except that a missing confidence is taken over. */
  function Imported(old_: Option<Fact>, e: Fact): Fact {
    e.(confidence := Coalesce(e.confidence, StoredConfidence(old_)))
  }

  lemma ImportFactIsUpsert(facts: Table<Fact>, e: Fact)
    ensures ImportFact(facts, e).Ok? <==> FactOk(e)
    ensures FactOk(e) ==> ImportFact(facts, e).value == Upsert(facts, e.fact, Imported(Find(facts, e.fact), e))
  {
    TrimEmpty();
    if FactOk(e) {
      var row := Refreshed(Find(facts, e.fact), e.refreshedAt, e.fact, e.provenance, e.confidence);
      var t := Upsert(facts, e.fact, row);
      var want := Imported(Find(facts, e.fact), e);
      assert row.(createdAt := e.createdAt) == want;
      assert Backdate(t, e.fact, e.createdAt).rows == Upsert(facts, e.fact, want).rows;
    }
  }

  lemma TrimEmpty()
    ensures Trim("") == ""
  {}

  lemma ImportTraceIsUpsert(traces: Table<Trace>, e: Trace)
    ensures ImportTrace(traces, e).Ok? <==> TraceOk(e)
    ensures TraceOk(e) ==> ImportTrace(traces, e).value == Upsert(traces, e.taskId, e)
  {}

  // ----- when an import is refused -----

  predicate AllFactsOk(es: seq<Fact>) {
    forall e :: e in es ==> FactOk(e)
  }

  /** The entries written one after the other, with nothing left to refuse. */
  function Merged(t: Table<Fact>, es: seq<Fact>): Table<Fact> {
    if es == [] then t
    else
      var before, e := Merged(t, es[..|es| - 1]), es[|es| - 1];
      Upsert(before, e.fact, Imported(Find(before, e.fact), e))
  }

  lemma AllFactsOkSnoc(es: seq<Fact>, e: Fact)
    ensures AllFactsOk(es + [e]) <==> AllFactsOk(es) && FactOk(e)
  {}

  lemma ImportFactsStep(t: Table<Fact>, es: seq<Fact>, e: Fact)
    ensures ImportFacts(t, es).Err? ==> ImportFacts(t, es + [e]) == ImportFacts(t, es)
    ensures ImportFacts(t, es).Ok? ==> ImportFacts(t, es + [e]) == ImportFact(ImportFacts(t, es).value, e)
    ensures Merged(t, es + [e]) == Upsert(Merged(t, es), e.fact, Imported(Find(Merged(t, es), e.fact), e))
  {}

  /** The entries are accepted, and leave what merging them leaves, exactly when each is a fact. */
  predicate Accepted(t: Table<Fact>, es: seq<Fact>) {
    && (ImportFacts(t, es).Ok? <==> AllFactsOk(es))
    && (AllFactsOk(es) ==> ImportFacts(t, es) == Ok(Merged(t, es)))
  }

  lemma {:induction false} EachAccepted(t: Table<Fact>, es: seq<Fact>)
    ensures Accepted(t, es)
  {
    if es != [] {
      var init, last := es[..|es| - 1], es[|es| - 1];
      EachAccepted(t, init);
      FactAccepted(t, init, last, Merged(t, init));
      assert es == init + [last];
    }
  }

  lemma FactsAccepted(t: Table<Fact>, es: seq<Fact>)
    ensures ImportFacts(t, es).Ok? <==> AllFactsOk(es)
    ensures AllFactsOk(es) ==> ImportFacts(t, es) == Ok(Merged(t, es))
  {
    EachAccepted(t, es);
  }

  lemma FactAccepted(t: Table<Fact>, init: seq<Fact>, last: Fact, before: Table<Fact>)
    requires before == Merged(t, init) && Accepted(t, init)
    ensures Accepted(t, init + [last])
  {
    AllFactsOkSnoc(init, last);
    ImportFactsStep(t, init, last);
    ImportFactIsUpsert(before, last);
  }

  lemma {:induction false} TracesAccepted(t: Table<Trace>, es: seq<Trace>)
    ensures ImportTraces(t, es).Ok? <==> forall i :: 0 <= i < |es| ==> TraceOk(es[i])
    ensures ImportTraces(t, es).Err? ==> ImportTraces(t, es).error == InvalidOutcome
  {
    if es != [] {
      var init, last := es[..|es| - 1], es[|es| - 1];
      TracesAccepted(t, init);
      assert es == init + [last];
      if ImportTraces(t, init).Ok? { ImportTraceIsUpsert(ImportTraces(t, init).value, last); }
    }
  }

  lemma {:induction false} FactsRefusal(t: Table<Fact>, es: seq<Fact>)
    requires forall i :: 0 <= i < |es| ==> es[i].fact != "" && ConfidenceOk(es[i].confidence)
    ensures ImportFacts(t, es).Err? ==> ImportFacts(t, es).error == ProvenanceRequired
  {
    if es != [] { FactsRefusal(t, es[..|es| - 1]); }
  }

  /**
   * The document's schema lets a blank provenance and an empty distill candidate through; the writes behind it
   * refuse both. Apart from these two an import always succeeds, and the error names the first thing wrong.
   */
  lemma ImportIsExact(db: Db, doc: Document)
    ensures Import(db, doc).Ok? <==>
      DocumentOk(doc) && AllFactsOk(doc.facts) && (forall e :: e in doc.traces ==> TraceOk(e))
    ensures Import(db, doc) == Err(MalformedDocument) <==> !DocumentOk(doc)
    ensures Import(db, doc) == Err(ProvenanceRequired) <==>
      DocumentOk(doc) && exists e :: e in doc.facts && Trim(e.provenance) == ""
    ensures Import(db, doc).Err? ==> Import(db, doc).error in {MalformedDocument, ProvenanceRequired, InvalidOutcome}
  {
    FactsAccepted(db.facts, doc.facts);
    TracesAccepted(db.traces, doc.traces);
    assert forall i :: 0 <= i < |doc.traces| ==> doc.traces[i] in doc.traces;
    if DocumentOk(doc) {
      forall i | 0 <= i < |doc.facts|
        ensures doc.facts[i].fact != "" && ConfidenceOk(doc.facts[i].confidence)
      {
        assert doc.facts[i] in doc.facts;
      }
      FactsRefusal(db.facts, doc.facts);
    }
  }

  predicate InRange(c: Option<real>) { c.None? || (c.value >= 0.0 && c.value <= 1.0) }

  /** A write of a fact is refused exactly for an empty fact, a confidence outside 0 to 1, or a blank provenance. */
  lemma RememberInWords(facts: Table<Fact>, now: nat, input: FactInput)
    ensures Remember(facts, now, input) == Err(InvalidFact) <==> input.fact == "" || !InRange(input.confidence)
    ensures Remember(facts, now, input) == Err(ProvenanceRequired) <==>
      && input.fact != "" && InRange(input.confidence)
      && (input.provenance.None? || Trim(input.provenance.value) == "")
    ensures Remember(facts, now, input).Ok? <==>
      && input.fact != "" && InRange(input.confidence)
      && input.provenance.Some? && Trim(input.provenance.value) != ""
  {}

  /** A write of an outcome is refused exactly for an empty text; it sets its task's row, in place if there is one. */
  lemma RecordInWords(traces: Table<Trace>, now: nat, o: Outcome, summary: string)
    ensures
      var r := Record(traces, now, o, summary);
      if o.taskId == "" || o.traceRef == "" || "" in o.distillCandidates then r == Err(InvalidOutcome)
      else
        && r.Ok? && r.value.keys == (if o.taskId in traces.rows then traces.keys else traces.keys + [o.taskId])
        && r.value.rows ==
             traces.rows[o.taskId := Trace(o.taskId, summary, o.traceRef, o.status, o.distillCandidates, now)]
  {}

  /** What the document's schema lets through. */
  predicate WellShaped(doc: Document) {
    && (forall e :: e in doc.facts ==> e.fact != "" && e.provenance != "" && InRange(e.confidence))
    && (forall e :: e in doc.traces ==> e.taskId != "" && e.traceRef != "")
  }

  predicate HasBlankProvenance(doc: Document) { exists e :: e in doc.facts && Trim(e.provenance) == "" }

  predicate HasEmptyCandidate(doc: Document) { exists e :: e in doc.traces && "" in e.distillCandidates }

  /** Every import has exactly one of four outcomes, each with its own cause, checked in this order. */
  lemma ImportInWords(db: Db, doc: Document)
    ensures
      var r := Import(db, doc);
      if !WellShaped(doc) then r == Err(MalformedDocument)
      else if HasBlankProvenance(doc) then r == Err(ProvenanceRequired)
      else if HasEmptyCandidate(doc) then r == Err(InvalidOutcome)
      else r.Ok?
  {
    ShapeInWords(doc);
    if DocumentOk(doc) { CausesInWords(doc); }
    ImportIsExact(db, doc);
  }

  lemma ShapeInWords(doc: Document)
    ensures WellShaped(doc) <==> DocumentOk(doc)
  {}

  lemma CausesInWords(doc: Document)
    requires DocumentOk(doc)
    ensures AllFactsOk(doc.facts) <==> !HasBlankProvenance(doc)
    ensures (forall e :: e in doc.traces ==> TraceOk(e)) <==> !HasEmptyCandidate(doc)
  {}

  // ----- the round trip -----

  function Prefix<R>(t: Table<R>, n: nat): Table<R>
    requires TableOk(t) && n <= |t.keys|
  {
    Table(t.keys[..n], map k | k in t.rows && k in t.keys[..n] :: t.rows[k])
  }

  lemma PrefixStep<R>(t: Table<R>, n: nat)
    requires TableOk(t) && n < |t.keys|
    ensures t.keys[n] in t.rows && t.keys[n] !in Prefix(t, n).rows
    ensures Prefix(t, n + 1) == Upsert(Prefix(t, n), t.keys[n], t.rows[t.keys[n]])
  {
    assert t.keys[n] in t.keys;
    assert t.keys[..n + 1] == t.keys[..n] + [t.keys[n]];
    forall i | 0 <= i < n
      ensures t.keys[..n][i] != t.keys[n]
    {}
  }

  lemma PrefixWhole<R>(t: Table<R>)
    requires TableOk(t)
    ensures Prefix(t, |t.keys|) == t
  {}

  lemma ImportFactsSnoc(t: Table<Fact>, es: seq<Fact>, e: Fact, before: Table<Fact>, after: Table<Fact>)
    requires ImportFacts(t, es) == Ok(before) && ImportFact(before, e) == Ok(after)
    ensures ImportFacts(t, es + [e]) == Ok(after)
  {
    assert (es + [e])[..|es|] == es;
  }

  lemma RowsStep<R>(t: Table<R>, n: nat)
    requires TableOk(t) && n < |t.keys|
    ensures t.keys[n] in t.rows && Rows(t)[..n + 1] == Rows(t)[..n] + [t.rows[t.keys[n]]]
  {}

  /** The `n`-th row and what comes before it. */
  lemma NextRow<R>(t: Table<R>, n: nat) returns (before: Table<R>, row: R)
    requires TableOk(t) && 0 < n <= |t.keys|
    ensures before == Prefix(t, n - 1) && t.keys[n - 1] !in before.rows
    ensures t.keys[n - 1] in t.rows && row == t.rows[t.keys[n - 1]]
    ensures Prefix(t, n) == Upsert(before, t.keys[n - 1], row) && Rows(t)[..n] == Rows(t)[..n - 1] + [row]
  {
    PrefixStep(t, n - 1);
    RowsStep(t, n - 1);
    before, row := Prefix(t, n - 1), t.rows[t.keys[n - 1]];
  }

  predicate KeyedByFact(t: Table<Fact>) {
    forall k :: k in t.rows ==> t.rows[k].fact == k
  }

  /** An entry with a new key is taken over as it is. */
  lemma NewFactArrives(es: seq<Fact>, e: Fact, before: Table<Fact>)
    requires Merged(Empty(), es) == before && e.fact !in before.rows
    ensures Merged(Empty(), es + [e]) == Upsert(before, e.fact, e)
  {
    ImportFactsStep(Empty(), es, e);
    assert Imported(None, e) == e;
  }

  lemma {:induction false} FactsArrive(t: Table<Fact>, n: nat)
    requires TableOk(t) && KeyedByFact(t) && n <= |t.keys|
    ensures Merged(Empty(), Rows(t)[..n]) == Prefix(t, n)
  {
    if n == 0 {
      assert Prefix(t, 0).rows == map[];
    } else {
      FactsArrive(t, n - 1);
      var before, row := NextRow(t, n);
      NewFactArrives(Rows(t)[..n - 1], row, before);
    }
  }

  lemma NewTraceArrives(es: seq<Trace>, e: Trace, before: Table<Trace>)
    requires ImportTraces(Empty(), es) == Ok(before) && TraceOk(e)
    ensures ImportTraces(Empty(), es + [e]) == Ok(Upsert(before, e.taskId, e))
  {
    assert (es + [e])[..|es|] == es;
    ImportTraceIsUpsert(before, e);
  }

  lemma {:induction false} TracesArrive(t: Table<Trace>, n: nat)
    requires TracesOk(t) && n <= |t.keys|
    ensures ImportTraces(Empty(), Rows(t)[..n]) == Ok(Prefix(t, n))
  {
    if n == 0 {
      assert Prefix(t, 0).rows == map[];
    } else {
      TracesArrive(t, n - 1);
      var before, row := NextRow(t, n);
      NewTraceArrives(Rows(t)[..n - 1], row, before);
    }
  }

  lemma FactsReturn(t: Table<Fact>)
    requires FactsOk(t)
    ensures ImportFacts(Empty(), Rows(t)) == Ok(t)
  {
    AllArrive(t);
    RowsAreOk(t);
    FactsAccepted(Empty(), Rows(t));
  }

  lemma AllArrive(t: Table<Fact>)
    requires TableOk(t) && KeyedByFact(t)
    ensures Merged(Empty(), Rows(t)) == t
  {
    FactsArrive(t, |t.keys|);
    PrefixWhole(t);
    assert Rows(t)[..|t.keys|] == Rows(t);
  }

  lemma RowsAreOk(t: Table<Fact>)
    requires FactsOk(t)
    ensures AllFactsOk(Rows(t))
  {}

  lemma TracesReturn(t: Table<Trace>)
    requires TracesOk(t)
    ensures ImportTraces(Empty(), Rows(t)) == Ok(t)
  {
    TracesArrive(t, |t.keys|);
    PrefixWhole(t);
    assert Rows(t)[..|t.keys|] == Rows(t);
  }

  /** An export carries everything: read into an empty memory it restores the same tables, order included. */
  lemma RoundTrip(db: Db)
    requires DbOk(db)
    ensures Import(EMPTY_DB, Export(db)) == Ok(db)
  {
    FactsReturn(db.facts);
    TracesReturn(db.traces);
    ExportIsWellFormed(db);
  }

  lemma ExportIsWellFormed(db: Db)
    requires DbOk(db)
    ensures DocumentOk(Export(db))
  {}

  // ----- what an import leaves behind -----

  /** The row of a key once the entries have been imported one after the other. */
  function FinalFact(held: Option<Fact>, es: seq<Fact>, k: string): Option<Fact> {
    if es == [] then held
    else
      var before, e := FinalFact(held, es[..|es| - 1], k), es[|es| - 1];
      if e.fact == k then Some(Imported(before, e)) else before
  }

  function FinalTrace(held: Option<Trace>, es: seq<Trace>, k: string): Option<Trace> {
    if es == [] then held
    else if es[|es| - 1].taskId == k then Some(es[|es| - 1])
    else FinalTrace(held, es[..|es| - 1], k)
  }

  /** The keys after an import: the old ones in place, the new ones in order of first appearance. */
  function AddedKeys(keys: seq<string>, added: seq<string>): seq<string> {
    if added == [] then keys
    else
      var before, k := AddedKeys(keys, added[..|added| - 1]), added[|added| - 1];
      if k in before then before else before + [k]
  }

  function FactKeys(es: seq<Fact>): (r: seq<string>)
    ensures |r| == |es| && forall i :: 0 <= i < |r| ==> r[i] == es[i].fact
  {
    seq(|es|, i requires 0 <= i < |es| => es[i].fact)
  }

  function TraceKeys(es: seq<Trace>): (r: seq<string>)
    ensures |r| == |es| && forall i :: 0 <= i < |r| ==> r[i] == es[i].taskId
  {
    seq(|es|, i requires 0 <= i < |es| => es[i].taskId)
  }

  lemma UpsertFinds<R>(t: Table<R>, k: string, row: R)
    requires TableOk(t)
    ensures TableOk(Upsert(t, k, row))
    ensures Upsert(t, k, row).keys == if k in t.keys then t.keys else t.keys + [k]
    ensures forall x :: Find(Upsert(t, k, row), x) == if x == k then Some(row) else Find(t, x)
  {}

  lemma MergedStep(before: Table<Fact>, e: Fact, k: string)
    requires TableOk(before)
    ensures var after := Upsert(before, e.fact, Imported(Find(before, e.fact), e));
            && TableOk(after)
            && Find(after, k) == (if e.fact == k then Some(Imported(Find(before, k), e)) else Find(before, k))
            && after.keys == (if e.fact in before.keys then before.keys else before.keys + [e.fact])
  {}

  lemma FactKeysStep(es: seq<Fact>, e: Fact)
    ensures FactKeys(es + [e]) == FactKeys(es) + [e.fact]
  {}

  lemma {:induction false} MergedHolds(t: Table<Fact>, es: seq<Fact>, k: string)
    requires TableOk(t)
    ensures TableOk(Merged(t, es))
    ensures Find(Merged(t, es), k) == FinalFact(Find(t, k), es, k)
    ensures Merged(t, es).keys == AddedKeys(t.keys, FactKeys(es))
  {
    if es != [] {
      var init, e := es[..|es| - 1], es[|es| - 1];
      assert es == init + [e];
      MergedHolds(t, init, k);
      var before := Merged(t, init);
      MergedStep(before, e, k);
      ImportFactsStep(t, init, e);
      FactKeysStep(init, e);
    }
  }

  /**
   * After an import every key holds what its entries leave, old keys keep their places and new ones follow in order.
   */
  lemma FactsLeft(t: Table<Fact>, es: seq<Fact>, k: string)
    requires TableOk(t) && ImportFacts(t, es).Ok?
    ensures TableOk(ImportFacts(t, es).value)
    ensures Find(ImportFacts(t, es).value, k) == FinalFact(Find(t, k), es, k)
    ensures ImportFacts(t, es).value.keys == AddedKeys(t.keys, FactKeys(es))
  {
    FactsAccepted(t, es);
    MergedHolds(t, es, k);
  }

  lemma {:induction false} TracesLeft(t: Table<Trace>, es: seq<Trace>, k: string)
    requires TableOk(t) && ImportTraces(t, es).Ok?
    ensures TableOk(ImportTraces(t, es).value)
    ensures Find(ImportTraces(t, es).value, k) == FinalTrace(Find(t, k), es, k)
    ensures ImportTraces(t, es).value.keys == AddedKeys(t.keys, TraceKeys(es))
  {
    if es != [] {
      var init, e := es[..|es| - 1], es[|es| - 1];
      TracesLeft(t, init, k);
      var before := ImportTraces(t, init).value;
      ImportTraceIsUpsert(before, e);
      UpsertFinds(before, e.taskId, e);
      assert TraceKeys(es)[..|es| - 1] == TraceKeys(init);
    }
  }

  // ----- importing again -----

  function LastConfidence(es: seq<Fact>, k: string): Option<real> {
    if es == [] then None
    else
      var e := es[|es| - 1];
      if e.fact == k && e.confidence.Some? then e.confidence else LastConfidence(es[..|es| - 1], k)
  }

  function LastFact(es: seq<Fact>, k: string): Option<Fact> {
    if es == [] then None else if es[|es| - 1].fact == k then Some(es[|es| - 1]) else LastFact(es[..|es| - 1], k)
  }

  /**
   * A key the document does not name keeps its row; another gets the last entry's row, with the last known confidence.
   */
  lemma {:induction false} FinalFactShape(held: Option<Fact>, es: seq<Fact>, k: string)
    ensures LastFact(es, k).None? ==> FinalFact(held, es, k) == held && LastConfidence(es, k) == None
    ensures var last := LastFact(es, k);
            last.Some? ==>
              FinalFact(held, es, k) ==
                Some(last.value.(confidence := Coalesce(LastConfidence(es, k), StoredConfidence(held))))
  {
    if es != [] { FinalFactShape(held, es[..|es| - 1], k); }
  }

  lemma FinalTraceShape(held: Option<Trace>, es: seq<Trace>, k: string)
    ensures FinalTrace(FinalTrace(held, es, k), es, k) == FinalTrace(held, es, k)
  {}

  lemma {:induction false} KeysAddedOnce(keys: seq<string>, added: seq<string>)
    requires forall i :: 0 <= i < |added| ==> added[i] in keys
    ensures AddedKeys(keys, added) == keys
  {
    if added != [] { KeysAddedOnce(keys, added[..|added| - 1]); }
  }

  lemma {:induction false} AddedAreIn(keys: seq<string>, added: seq<string>)
    ensures forall i :: 0 <= i < |added| ==> added[i] in AddedKeys(keys, added)
  {
    if added != [] {
      var init := added[..|added| - 1];
      AddedAreIn(keys, init);
      assert added == init + [added[|added| - 1]];
    }
  }

  /** Two well-formed tables with the same keys in the same order and the same rows are the same table. */
  lemma SameTable<R>(t: Table<R>, u: Table<R>)
    requires TableOk(t) && TableOk(u) && t.keys == u.keys && forall k :: Find(t, k) == Find(u, k)
    ensures t == u
  {
    assert forall k :: k in t.rows <==> k in u.rows;
    assert forall k :: k in t.rows ==> Find(t, k) == Find(u, k);
    assert t.rows == u.rows;
  }

  lemma FactRowAgain(t: Table<Fact>, es: seq<Fact>, k: string)
    requires TableOk(t)
    ensures Find(Merged(Merged(t, es), es), k) == Find(Merged(t, es), k)
  {
    MergedHolds(t, es, k);
    MergedHolds(Merged(t, es), es, k);
    FinalFactShape(Find(t, k), es, k);
    FinalFactShape(FinalFact(Find(t, k), es, k), es, k);
  }

  lemma FactsAgain(t: Table<Fact>, es: seq<Fact>)
    requires TableOk(t)
    ensures Merged(Merged(t, es), es) == Merged(t, es)
  {
    var u := Merged(t, es);
    MergedHolds(t, es, "");
    MergedHolds(u, es, "");
    forall k
      ensures Find(u, k) == Find(Merged(u, es), k)
    {
      FactRowAgain(t, es, k);
    }
    AddedAreIn(t.keys, FactKeys(es));
    KeysAddedOnce(u.keys, FactKeys(es));
    SameTable(u, Merged(u, es));
  }

  lemma TracesAgain(t: Table<Trace>, es: seq<Trace>)
    requires TableOk(t) && ImportTraces(t, es).Ok?
    ensures ImportTraces(ImportTraces(t, es).value, es) == Ok(ImportTraces(t, es).value)
  {
    var u := ImportTraces(t, es).value;
    TracesAccepted(t, es);
    TracesAccepted(u, es);
    TracesLeft(t, es, "");
    var w := ImportTraces(u, es).value;
    TracesLeft(u, es, "");
    forall k
      ensures Find(u, k) == Find(w, k)
    {
      TracesLeft(t, es, k);
      TracesLeft(u, es, k);
      FinalTraceShape(Find(t, k), es, k);
    }
    AddedAreIn(t.keys, TraceKeys(es));
    KeysAddedOnce(u.keys, TraceKeys(es));
    SameTable(u, w);
  }

  /** Importing a document a second time changes nothing, whatever the memory held before. */
  lemma ImportIsIdempotent(db: Db, doc: Document)
    requires TableOk(db.facts) && TableOk(db.traces) && Import(db, doc).Ok?
    ensures Import(Import(db, doc).value, doc) == Import(db, doc)
  {
    FactsAccepted(db.facts, doc.facts);
    FactsAccepted(Merged(db.facts, doc.facts), doc.facts);
    FactsAgain(db.facts, doc.facts);
    TracesAgain(db.traces, doc.traces);
  }

  // ----- imports keep a memory well formed -----

  lemma {:induction false} ImportFactsKeeps(t: Table<Fact>, es: seq<Fact>)
    requires FactsOk(t) && ImportFacts(t, es).Ok?
    ensures FactsOk(ImportFacts(t, es).value)
  {
    if es != [] {
      var init, e := es[..|es| - 1], es[|es| - 1];
      ImportFactsKeeps(t, init);
      ImportFactKeeps(ImportFacts(t, init).value, e);
    }
  }

  lemma ImportFactKeeps(t: Table<Fact>, e: Fact)
    requires FactsOk(t) && ImportFact(t, e).Ok?
    ensures FactsOk(ImportFact(t, e).value)
  {
    ImportFactIsUpsert(t, e);
    var held := Find(t, e.fact);
    assert held.Some? ==> FactOk(held.value);
    UpsertKeepsFacts(t, Imported(held, e));
  }

  lemma {:induction false} ImportTracesKeeps(t: Table<Trace>, es: seq<Trace>)
    requires TracesOk(t) && ImportTraces(t, es).Ok?
    ensures TracesOk(ImportTraces(t, es).value)
  {
    if es != [] {
      var init, e := es[..|es| - 1], es[|es| - 1];
      ImportTracesKeeps(t, init);
      RecordKeeps(ImportTraces(t, init).value, e.createdAt, OutcomeOf(e), e.summary);
    }
  }

  lemma ImportKeeps(db: Db, doc: Document)
    requires DbOk(db) && Import(db, doc).Ok?
    ensures DbOk(Import(db, doc).value)
  {
    ImportFactsKeeps(db.facts, doc.facts);
    ImportTracesKeeps(db.traces, doc.traces);
  }
}
