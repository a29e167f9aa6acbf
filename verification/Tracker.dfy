/** The outside issue tracker as an adversary: every answer may depend on the whole history of calls. */
module Tracker {
  import opened Prelude
  import opened Text
  import opened Scrum

  datatype CreateInput = CreateInput(title: string, body: string, labels: seq<string>)

  /** `Created` may carry any ref at all, including one the ledger will refuse. */
  datatype CreateAnswer = Created(ref: string) | CreateFailed

  datatype ReadAnswer = IssueOpen | IssueClosed | ReadFailed

  /** One call that really reached the tracker. */
  datatype Exchange =
    | CreateCall(input: CreateInput, createAnswer: CreateAnswer)
    | EditCall(number: string, body: string, ok: bool)
    | ReadCall(ref: string, readAnswer: ReadAnswer)

  type Log = seq<Exchange>

  datatype Oracle = Oracle(
    create: (Log, CreateInput) -> CreateAnswer,
    edit: (Log, string, string) -> bool,
    read: (Log, string) -> ReadAnswer)

  datatype Mode = DryRun | Execute

  const BODY_MAX := 65536
  const TITLE_MAX := 256
  const LABELS_MAX := 20
  const DRY_RUN_REF := "dry-run://no-mutation"

  /** The provider's boundary schema: an input that fails it is refused before anything is spawned. */
  predicate ValidCreate(input: CreateInput) {
    && 1 <= |input.title| <= TITLE_MAX && |input.body| <= BODY_MAX && |input.labels| <= LABELS_MAX
    && forall text | text in input.labels :: LabelSafe(text)
  }

  predicate ValidBody(body: string) { 1 <= |body| <= BODY_MAX }

  /** The provider's createIssue: answer and call log afterwards. A dry run spawns nothing. */
  function CreateIssue(t: Oracle, mode: Mode, log: Log, input: CreateInput): (CreateAnswer, Log) {
    if !ValidCreate(input) then (CreateFailed, log)
    else if mode == DryRun then (Created(DRY_RUN_REF), log)
    else var answer := t.create(log, input); (answer, log + [CreateCall(input, answer)])
  }

  /** The provider's editBody in execute mode, the only mode it is called in. */
  function EditBody(t: Oracle, log: Log, number: string, body: string): (bool, Log) {
    if !ValidBody(body) then (false, log)
    else var ok := t.edit(log, number, body); (ok, log + [EditCall(number, body, ok)])
  }

  function GetIssue(t: Oracle, log: Log, ref: string): (ReadAnswer, Log) {
    var answer := t.read(log, ref);
    (answer, log + [ReadCall(ref, answer)])
  }

  /** The provider handle: its calls extend the log and nothing else. */
  class IssueTracker {
    const oracle: Oracle
    var log: Log

    constructor (oracle: Oracle)
      ensures this.oracle == oracle && log == []
    {
      this.oracle := oracle;
      log := [];
    }

    method Create(mode: Mode, input: CreateInput) returns (answer: CreateAnswer)
      modifies this
      ensures (answer, log) == CreateIssue(oracle, mode, old(log), input)
    {
      if !ValidCreate(input) { return CreateFailed; }
      if mode == DryRun { return Created(DRY_RUN_REF); }
      answer := oracle.create(log, input);
      log := log + [CreateCall(input, answer)];
    }

    method Edit(number: string, body: string) returns (ok: bool)
      modifies this
      ensures (ok, log) == EditBody(oracle, old(log), number, body)
    {
      if !ValidBody(body) { return false; }
      ok := oracle.edit(log, number, body);
      log := log + [EditCall(number, body, ok)];
    }

    method Get(ref: string) returns (answer: ReadAnswer)
      modifies this
      ensures (answer, log) == GetIssue(oracle, old(log), ref)
    {
      answer := oracle.read(log, ref);
      log := log + [ReadCall(ref, answer)];
    }
  }

  // ----- issue numbers and linked bodies -----

  /** The trailing run of digits. */
  function DigitTail(s: string): (r: string)
    ensures |r| <= |s| && r == s[|s| - |r|..] && AllDigits(r)
    ensures |r| < |s| ==> !IsDigit(s[|s| - |r| - 1])
  {
    if s != [] && IsDigit(s[|s| - 1]) then DigitTail(s[..|s| - 1]) + [s[|s| - 1]] else []
  }

  function ResolveNumber(s: string): Option<string> {
    var digits := DigitTail(s);
    var head := s[..|s| - |digits|];
    if digits == "" then None
    else if head == "" || head == "#" || head[|head| - 1] == '/' then Some(digits)
    else None
  }

  /** The number of `N`, `#N` or `…/N`; None when the ref ends in no resolvable number. */
  function IssueNumber(ref: string): Option<string> {
    ResolveNumber(Trim(ref))
  }

  function WithParentRef(body: string, number: string): string {
    "Parent: #" + number + "\n\n" + body
  }

  function LinkedBody(body: string, parentNumber: Option<string>): string {
    if parentNumber.Some? then WithParentRef(body, parentNumber.value) else body
  }

  function TaskLine(number: string): string { "- [ ] #" + number }

  function TaskLines(numbers: seq<string>): seq<string> {
    seq(|numbers|, i requires 0 <= i < |numbers| => TaskLine(numbers[i]))
  }

  /** None when there is no child to list. */
  function EpicBody(body: string, numbers: seq<string>): Option<string> {
    if numbers == [] then None
    else Some(body + "\n\n" + "## Sub-issues" + "\n" + Join(TaskLines(numbers), "\n"))
  }

  /** What may stand before the digits: nothing, a `#`, or anything up to a slash. */
  predicate NumberHead(head: string) {
    head == "" || head == "#" || head[|head| - 1] == '/'
  }

  /** A bare number, a `#` number or a path ending in a segment of digits. */
  ghost predicate SpellsNumber(s: string, digits: string) {
    digits != "" && AllDigits(digits) && exists head :: NumberHead(head) && s == head + digits
  }

  /** A ref resolves to a number exactly when, trimmed, it spells that number; any other resolves to nothing. */
  lemma NumberResolves(ref: string, digits: string)
    ensures IssueNumber(ref) == Some(digits) <==> SpellsNumber(Trim(ref), digits)
  {
    SpelledResolves(Trim(ref), digits);
    ResolvedIsSpelled(Trim(ref));
  }

  lemma ResolvedIsSpelled(s: string)
    ensures ResolveNumber(s).Some? ==> SpellsNumber(s, ResolveNumber(s).value)
  {
    var digits := DigitTail(s);
    assert s == s[..|s| - |digits|] + digits;
  }

  lemma SpelledResolves(s: string, digits: string)
    ensures SpellsNumber(s, digits) ==> ResolveNumber(s) == Some(digits)
  {
    if SpellsNumber(s, digits) {
      var head :| NumberHead(head) && s == head + digits;
      TailResolves(head, digits);
    }
  }

  lemma TailResolves(head: string, digits: string)
    requires NumberHead(head) && digits != "" && AllDigits(digits)
    ensures ResolveNumber(head + digits) == Some(digits)
  {
    DigitTailOf(head, digits);
    HeadResolves(head + digits, head, digits);
  }

  lemma HeadResolves(s: string, head: string, digits: string)
    requires s == head + digits && DigitTail(s) == digits && NumberHead(head) && digits != ""
    ensures ResolveNumber(s) == Some(digits)
  {
    assert s[..|head|] == head;
  }

  lemma {:induction false} DigitTailOf(head: string, digits: string)
    requires AllDigits(digits) && (head != "" ==> !IsDigit(head[|head| - 1]))
    ensures DigitTail(head + digits) == digits
    decreases |digits|
  {
    if digits == "" {
      assert head + digits == head;
    } else {
      var init, last := digits[..|digits| - 1], digits[|digits| - 1];
      assert digits == init + [last];
      DigitTailOf(head, init);
      DigitTailSnoc(head, init, last);
    }
  }

  lemma DigitTailSnoc(head: string, digits: string, c: char)
    requires IsDigit(c)
    ensures DigitTail(head + (digits + [c])) == DigitTail(head + digits) + [c]
  {
    var s := head + (digits + [c]);
    assert s[..|s| - 1] == head + digits && s[|s| - 1] == c;
  }

  /** Trimming a ref, as the ledger does before storing it, does not change the number it resolves to. */
  lemma NumberOfStoredRef(ref: string)
    ensures IssueNumber(Trim(ref)) == IssueNumber(ref)
  {}
}
