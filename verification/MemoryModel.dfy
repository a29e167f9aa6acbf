/** The memory faculty's two upserting tables and the portable document they are exported to and imported from. */
module MemoryModel {
  import opened Prelude
  import opened Text

  /** A table with a unique key: its rows, and its keys in row order (an updated row keeps its place). */
  datatype Table<R> = Table(keys: seq<string>, rows: map<string, R>)

  ghost predicate TableOk<R>(t: Table<R>) {
    && (forall i, j :: 0 <= i < j < |t.keys| ==> t.keys[i] != t.keys[j])
    && (forall k :: k in t.keys <==> k in t.rows)
  }

  function Upsert<R>(t: Table<R>, k: string, row: R): Table<R> {
    Table(if k in t.rows then t.keys else t.keys + [k], t.rows[k := row])
  }

  function Rows<R>(t: Table<R>): (r: seq<R>)
    requires TableOk(t)
    ensures |r| == |t.keys| && forall i :: 0 <= i < |r| ==> r[i] == t.rows[t.keys[i]]
  {
    seq(|t.keys|, i requires 0 <= i < |t.keys| => assert t.keys[i] in t.keys; t.rows[t.keys[i]])
  }

  function Empty<R>(): Table<R> { Table([], map[]) }

  /** A stored fact, which is also its exported form. */
  datatype Fact = Fact(fact: string, provenance: string, confidence: Option<real>, createdAt: nat, refreshedAt: nat)

  datatype Status = Success | Partial | Failure | Cancelled

  datatype Trace = Trace(
    taskId: string, summary: string, traceRef: string, status: Status, distillCandidates: seq<string>, createdAt: nat)

  datatype FactInput = FactInput(fact: string, provenance: Option<string>, confidence: Option<real>)

  datatype Outcome = Outcome(taskId: string, status: Status, traceRef: string, distillCandidates: seq<string>)

  datatype Document = Document(facts: seq<Fact>, traces: seq<Trace>)

  datatype MemoryError = MalformedDocument | InvalidFact | ProvenanceRequired | InvalidOutcome

  datatype Db = Db(facts: Table<Fact>, traces: Table<Trace>)

  const EMPTY_DB := Db(Empty(), Empty())

  predicate ConfidenceOk(c: Option<real>) {
    c.Some? ==> 0.0 <= c.value <= 1.0
  }

  /** SQL's COALESCE of two values. */
  function Coalesce(a: Option<real>, b: Option<real>): Option<real> {
    if a.Some? then a else b
  }

  function StoredConfidence(old_: Option<Fact>): Option<real> {
    if old_.Some? then old_.value.confidence else None
  }

  function Find<R>(t: Table<R>, k: string): Option<R> {
    if k in t.rows then Some(t.rows[k]) else None
  }

  /** What an upsert leaves behind: only an existing row keeps its birth date, and a missing confidence is kept. */
  function Refreshed(old_: Option<Fact>, now: nat, fact: string, provenance: string, confidence: Option<real>): Fact {
    var createdAt := if old_.Some? then old_.value.createdAt else now;
    Fact(fact, provenance, Coalesce(confidence, StoredConfidence(old_)), createdAt, now)
  }

  function Remember(facts: Table<Fact>, now: nat, input: FactInput): Result<Table<Fact>, MemoryError> {
    if input.fact == "" || !ConfidenceOk(input.confidence) then Err(InvalidFact)
    else if input.provenance.None? || Trim(input.provenance.value) == "" then Err(ProvenanceRequired)
    else Ok(Upsert(facts, input.fact,
                   Refreshed(Find(facts, input.fact), now, input.fact, input.provenance.value, input.confidence)))
  }

  predicate OutcomeOk(o: Outcome) {
    o.taskId != "" && o.traceRef != "" && "" !in o.distillCandidates
  }

  function Record(traces: Table<Trace>, now: nat, o: Outcome, summary: string): Result<Table<Trace>, MemoryError> {
    if !OutcomeOk(o) then Err(InvalidOutcome)
    else Ok(Upsert(traces, o.taskId, Trace(o.taskId, summary, o.traceRef, o.status, o.distillCandidates, now)))
  }

  // ----- export and import -----

  function Export(db: Db): Document
    requires TableOk(db.facts) && TableOk(db.traces)
  {
    Document(Rows(db.facts), Rows(db.traces))
  }

  function InputOf(e: Fact): FactInput { FactInput(e.fact, Some(e.provenance), e.confidence) }

  function OutcomeOf(e: Trace): Outcome { Outcome(e.taskId, e.status, e.traceRef, e.distillCandidates) }

  function Backdate(facts: Table<Fact>, k: string, createdAt: nat): Table<Fact>
    requires k in facts.rows
  {
    facts.(rows := facts.rows[k := facts.rows[k].(createdAt := createdAt)])
  }

  /** The fact is written as if it were refreshed at its own time, then its birth date is put back. */
  function ImportFact(facts: Table<Fact>, e: Fact): Result<Table<Fact>, MemoryError> {
    match Remember(facts, e.refreshedAt, InputOf(e))
    case Err(error) => Err(error)
    case Ok(t) => Ok(Backdate(t, e.fact, e.createdAt))
  }

  function ImportTrace(traces: Table<Trace>, e: Trace): Result<Table<Trace>, MemoryError> {
    Record(traces, e.createdAt, OutcomeOf(e), e.summary)
  }

  function ImportFacts(facts: Table<Fact>, es: seq<Fact>): Result<Table<Fact>, MemoryError> {
    if es == [] then Ok(facts)
    else match ImportFacts(facts, es[..|es| - 1])
      case Err(error) => Err(error)
      case Ok(t) => ImportFact(t, es[|es| - 1])
  }

  function ImportTraces(traces: Table<Trace>, es: seq<Trace>): Result<Table<Trace>, MemoryError> {
    if es == [] then Ok(traces)
    else match ImportTraces(traces, es[..|es| - 1])
      case Err(error) => Err(error)
      case Ok(t) => ImportTrace(t, es[|es| - 1])
  }

  /** What the document's own schema demands, before anything is written. */
  predicate DocumentOk(doc: Document) {
    && (forall e :: e in doc.facts ==> e.fact != "" && e.provenance != "" && ConfidenceOk(e.confidence))
    && (forall e :: e in doc.traces ==> e.taskId != "" && e.traceRef != "")
  }

  function Import(db: Db, doc: Document): Result<Db, MemoryError> {
    if !DocumentOk(doc) then Err(MalformedDocument)
    else match ImportFacts(db.facts, doc.facts)
      case Err(error) => Err(error)
      case Ok(facts) =>
        match ImportTraces(db.traces, doc.traces)
        case Err(error) => Err(error)
        case Ok(traces) => Ok(Db(facts, traces))
  }

  // ----- what every write keeps -----

  predicate FactOk(e: Fact) {
    e.fact != "" && Trim(e.provenance) != "" && ConfidenceOk(e.confidence)
  }

  predicate TraceOk(e: Trace) {
    OutcomeOk(OutcomeOf(e))
  }

  ghost predicate FactsOk(t: Table<Fact>) {
    TableOk(t) && forall k :: k in t.rows ==> t.rows[k].fact == k && FactOk(t.rows[k])
  }

  ghost predicate TracesOk(t: Table<Trace>) {
    TableOk(t) && forall k :: k in t.rows ==> t.rows[k].taskId == k && TraceOk(t.rows[k])
  }

  ghost predicate DbOk(db: Db) { FactsOk(db.facts) && TracesOk(db.traces) }
}
