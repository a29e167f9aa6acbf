/** The scrum faculty: task contracts, goal decomposition and the constraint-tag to label map. */
module Scrum {
  import opened Prelude
  import opened Text
  import opened ConstraintTags

  datatype Tier = Observe | Suggest | Advisory | Enforce

  function Rank(t: Tier): nat {
    match t case Observe => 0 case Suggest => 1 case Advisory => 2 case Enforce => 3
  }

  function MinTier(a: Tier, b: Tier): Tier {
    if Rank(a) <= Rank(b) then a else b
  }

  datatype Dimension = Tokens | Usd | WallClockMin

  /** The original's `usd` and `wallClockMin` are floats; here they are exact reals. */
  datatype Budget = Budget(tokens: int, usd: real, wallClockMin: real)

  function Amount(b: Budget, d: Dimension): real {
    match d case Tokens => b.tokens as real case Usd => b.usd case WallClockMin => b.wallClockMin
  }

  datatype EvidenceKind = TestEvidence | CiEvidence | DocEvidence | EvalEvidence
  datatype Evidence = Evidence(kind: EvidenceKind, ref: string)
  datatype Check = Check(name: string, command: string)

  datatype TaskContract = TaskContract(
    id: string,
    parent: Option<string>,
    goal: string,
    constraints: seq<string>,
    budget: Budget,
    evidence: seq<Evidence>,
    definitionOfDone: seq<Check>,
    authorityCeiling: Tier,
    overlay: string)

  datatype Assignee = Pm | Coder | Reviewer | Documenter | Researcher

  function AssigneeName(a: Assignee): string {
    match a
    case Pm => "pm"
    case Coder => "coder"
    case Reviewer => "reviewer"
    case Documenter => "documenter"
    case Researcher => "researcher"
  }

  /** A proposed child. Identity, overlay and authority are not inputs. */
  datatype StorySpec = StorySpec(
    goal: string,
    constraints: Option<seq<string>>,
    budget: Budget,
    evidence: Option<seq<Evidence>>,
    definitionOfDone: Option<seq<Check>>,
    assignTo: Assignee,
    altitude: Altitude,
    track: Option<string>,
    sprint: Option<string>)

  datatype DecomposeError =
    | InvalidParent
    | InvalidStory(index: nat)
    | LeafParent(parentAltitude: Altitude)
    | WrongAltitude(index: nat, expected: Altitude, actual: Altitude)
    | BudgetExceeded(dimension: Dimension)

  // ----- the schemas at the boundary -----

  predicate ValidEvidence(evidence: seq<Evidence>) { forall e | e in evidence :: e.ref != "" }

  predicate ValidChecks(checks: seq<Check>) { forall c | c in checks :: c.name != "" && c.command != "" }

  predicate ValidConstraints(constraints: seq<string>) { forall c | c in constraints :: c != "" }

  predicate ValidTask(t: TaskContract) {
    && t.id != "" && (t.parent.Some? ==> t.parent.value != "") && t.goal != "" && ValidConstraints(t.constraints)
    && t.budget.tokens >= 0 && t.budget.usd >= 0.0 && t.budget.wallClockMin >= 0.0
    && ValidEvidence(t.evidence) && ValidChecks(t.definitionOfDone) && t.overlay != ""
  }

  /** A slice with nothing to spend on some dimension is rejected. */
  predicate PositiveBudget(b: Budget) { b.tokens > 0 && b.usd > 0.0 && b.wallClockMin > 0.0 }

  function GetOr<T>(o: Option<seq<T>>): seq<T> {
    if o.Some? then o.value else []
  }

  predicate ValidStory(s: StorySpec) {
    && s.goal != "" && ValidConstraints(GetOr(s.constraints)) && PositiveBudget(s.budget)
    && ValidEvidence(GetOr(s.evidence)) && ValidChecks(GetOr(s.definitionOfDone))
  }

  // ----- decomposition -----

  /** The one rung below a decomposable altitude; a task is a leaf. */
  function ChildAltitude(a: Altitude): Option<Altitude> {
    match a case Epic => Some(Story) case Story => Some(Task) case Task => None
  }

  /** Index of the first element that fails `ok`. */
  function FirstFailure<T>(xs: seq<T>, ok: T -> bool): (r: Option<nat>)
    ensures r.None? <==> forall i :: 0 <= i < |xs| ==> ok(xs[i])
    ensures r.Some? ==> r.value < |xs| && !ok(xs[r.value]) && forall i :: 0 <= i < r.value ==> ok(xs[i])
  {
    if xs == [] then None
    else match FirstFailure(xs[..|xs| - 1], ok)
      case Some(i) => Some(i)
      case None => if ok(xs[|xs| - 1]) then None else Some(|xs| - 1)
  }

  function CheckAltitudeDescent(parentAltitude: Option<Altitude>, stories: seq<StorySpec>): Option<DecomposeError> {
    match parentAltitude
    case None => None
    case Some(pa) =>
      match ChildAltitude(pa)
      case None => Some(LeafParent(pa))
      case Some(expected) =>
        match FirstFailure(stories, (s: StorySpec) => s.altitude == expected)
        case None => None
        case Some(i) => Some(WrongAltitude(i, expected, stories[i].altitude))
  }

  function ChildSum(stories: seq<StorySpec>, d: Dimension): real {
    if stories == [] then 0.0
    else ChildSum(stories[..|stories| - 1], d) + Amount(stories[|stories| - 1].budget, d)
  }

  function CheckBudgetInvariant(parent: TaskContract, stories: seq<StorySpec>): Option<DecomposeError> {
    if ChildSum(stories, Tokens) > Amount(parent.budget, Tokens) then Some(BudgetExceeded(Tokens))
    else if ChildSum(stories, Usd) > Amount(parent.budget, Usd) then Some(BudgetExceeded(Usd))
    else if ChildSum(stories, WallClockMin) > Amount(parent.budget, WallClockMin)
      then Some(BudgetExceeded(WallClockMin))
    else None
  }

  function OptionalTag(key: TagKey, value: Option<string>): seq<string> {
    if value.Some? then [ConstraintTag(key, value.value)] else []
  }

  function DerivedTags(s: StorySpec): seq<string> {
    [ConstraintTag(AltitudeKey, AltitudeName(s.altitude))] + OptionalTag(TrackKey, s.track) +
      OptionalTag(SprintKey, s.sprint)
    + [ConstraintTag(AssignKey, "agent." + AssigneeName(s.assignTo))]
  }

  /** The parent's free-form constraints, the story's own, then the derived program tags. */
  function ChildConstraints(inherited: seq<string>, s: StorySpec): seq<string> {
    inherited + GetOr(s.constraints) + DerivedTags(s)
  }

  function ChildId(parent: string, k: nat): string {
    parent + "." + Decimal(k)
  }

  function ToChild(parent: TaskContract, inherited: seq<string>, s: StorySpec, index: nat): TaskContract {
    TaskContract(ChildId(parent.id, index + 1), Some(parent.id), s.goal, ChildConstraints(inherited, s), s.budget,
                 GetOr(s.evidence), GetOr(s.definitionOfDone), MinTier(parent.authorityCeiling, Suggest),
                 parent.overlay)
  }

  function DecomposeGoal(parent: TaskContract, subtasks: seq<StorySpec>): Result<seq<TaskContract>, DecomposeError> {
    if !ValidTask(parent) then Err(InvalidParent)
    else match TagsOf(parent.constraints)
      case Err(_) => Err(InvalidParent)
      case Ok(tags) => DecomposeUnder(parent, tags.altitude, tags.other, subtasks)
  }

  /** The checks after the parent's tags are read, in the original's order. */
  function DecomposeUnder(parent: TaskContract, altitude: Option<Altitude>, inherited: seq<string>,
                          subtasks: seq<StorySpec>)
    : Result<seq<TaskContract>, DecomposeError>
  {
    match FirstFailure(subtasks, ValidStory)
    case Some(i) => Err(InvalidStory(i))
    case None =>
      match CheckAltitudeDescent(altitude, subtasks)
      case Some(e) => Err(e)
      case None =>
        match CheckBudgetInvariant(parent, subtasks)
        case Some(e) => Err(e)
        case None => Children(parent, inherited, subtasks)
  }

  function Children(parent: TaskContract, inherited: seq<string>, subtasks: seq<StorySpec>)
    : Result<seq<TaskContract>, DecomposeError>
  {
    match FirstFailure(subtasks, (s: StorySpec) => TagsOf(ChildConstraints(inherited, s)).Ok?)
    case Some(i) => Err(InvalidStory(i))
    case None => Ok(ToChildren(parent, inherited, subtasks))
  }

  function ToChildren(parent: TaskContract, inherited: seq<string>, subtasks: seq<StorySpec>): (r: seq<TaskContract>)
    ensures |r| == |subtasks|
  {
    seq(|subtasks|, i requires 0 <= i < |subtasks| => ToChild(parent, inherited, subtasks[i], i))
  }

  // ----- what an accepted decomposition guarantees -----

  predicate RungBelow(parent: Option<Altitude>, child: Altitude) {
    parent.None? || ChildAltitude(parent.value) == Some(child)
  }

  predicate AllValid(subtasks: seq<StorySpec>) {
    forall i :: 0 <= i < |subtasks| ==> ValidStory(subtasks[i])
  }

  predicate AllDescend(altitude: Option<Altitude>, subtasks: seq<StorySpec>) {
    altitude != Some(Task) && forall i :: 0 <= i < |subtasks| ==> RungBelow(altitude, subtasks[i].altitude)
  }

  predicate AllReadable(inherited: seq<string>, subtasks: seq<StorySpec>) {
    forall i :: 0 <= i < |subtasks| ==> WellTagged(ChildConstraints(inherited, subtasks[i]))
  }

  predicate WithinBudget(parent: TaskContract, subtasks: seq<StorySpec>) {
    && ChildSum(subtasks, Tokens) <= Amount(parent.budget, Tokens)
    && ChildSum(subtasks, Usd) <= Amount(parent.budget, Usd)
    && ChildSum(subtasks, WallClockMin) <= Amount(parent.budget, WallClockMin)
  }

  /**
   * Acceptable, stated without the order of the checks: schemas, one rung down, every dimension within, readable tags.
   */
  predicate Acceptable(parent: TaskContract, subtasks: seq<StorySpec>) {
    && ValidTask(parent) && WellTagged(parent.constraints)
    && AllValid(subtasks) && WithinBudget(parent, subtasks)
    && AllDescend(MeaningOf(parent.constraints).altitude, subtasks)
    && AllReadable(Free(parent.constraints), subtasks)
  }

  lemma ValidityIsExact(subtasks: seq<StorySpec>)
    ensures FirstFailure(subtasks, ValidStory).None? <==> AllValid(subtasks)
  {}

  lemma DescentIsExact(altitude: Option<Altitude>, subtasks: seq<StorySpec>)
    ensures CheckAltitudeDescent(altitude, subtasks).None? <==> AllDescend(altitude, subtasks)
  {}

  lemma BudgetIsExact(parent: TaskContract, subtasks: seq<StorySpec>)
    ensures CheckBudgetInvariant(parent, subtasks).None? <==> WithinBudget(parent, subtasks)
  {}

  lemma ChildrenAreExact(parent: TaskContract, inherited: seq<string>, subtasks: seq<StorySpec>)
    ensures Children(parent, inherited, subtasks).Ok? <==> AllReadable(inherited, subtasks)
    ensures AllReadable(inherited, subtasks) ==>
      Children(parent, inherited, subtasks) == Ok(ToChildren(parent, inherited, subtasks))
  {
    forall s: StorySpec
      ensures TagsOf(ChildConstraints(inherited, s)).Ok? <==> WellTagged(ChildConstraints(inherited, s))
    {
      ReaderIsExact(ChildConstraints(inherited, s));
    }
  }

  lemma DecomposeUnderIsExact(parent: TaskContract, altitude: Option<Altitude>, inherited: seq<string>,
                              subtasks: seq<StorySpec>)
    ensures DecomposeUnder(parent, altitude, inherited, subtasks).Ok? <==>
      AllValid(subtasks) && AllDescend(altitude, subtasks) && WithinBudget(parent, subtasks)
        && AllReadable(inherited, subtasks)
    ensures DecomposeUnder(parent, altitude, inherited, subtasks).Ok? ==>
      DecomposeUnder(parent, altitude, inherited, subtasks) == Ok(ToChildren(parent, inherited, subtasks))
  {
    ValidityIsExact(subtasks);
    DescentIsExact(altitude, subtasks);
    BudgetIsExact(parent, subtasks);
    ChildrenAreExact(parent, inherited, subtasks);
  }

  /** Decomposition succeeds exactly on the acceptable inputs, and then yields one child a story, in order. */
  lemma DecomposeIsExact(parent: TaskContract, subtasks: seq<StorySpec>)
    ensures DecomposeGoal(parent, subtasks).Ok? <==> Acceptable(parent, subtasks)
    ensures Acceptable(parent, subtasks) ==>
      DecomposeGoal(parent, subtasks).value == ToChildren(parent, Free(parent.constraints), subtasks)
  {
    ReaderIsExact(parent.constraints);
    if WellTagged(parent.constraints) {
      var tags := MeaningOf(parent.constraints);
      assert tags.other == Free(parent.constraints);
      DecomposeUnderIsExact(parent, tags.altitude, tags.other, subtasks);
    }
  }

  lemma {:induction false} TagIsAValue(constraints: seq<string>, raw: string, key: TagKey)
    requires raw in constraints && KeyOf(raw) == Some(key)
    ensures ValueOf(raw) in Values(constraints, key)
  {
    if constraints[|constraints| - 1] != raw {
      assert raw in constraints[..|constraints| - 1];
      TagIsAValue(constraints[..|constraints| - 1], raw, key);
    }
  }

  lemma ChildHasAltitudeTag(inherited: seq<string>, s: StorySpec)
    ensures ConstraintTag(AltitudeKey, AltitudeName(s.altitude)) in ChildConstraints(inherited, s)
  {}

  /** An accepted child is of its story's altitude. */
  lemma ChildAltitudeTag(inherited: seq<string>, s: StorySpec)
    requires WellTagged(ChildConstraints(inherited, s))
    ensures MeaningOf(ChildConstraints(inherited, s)).altitude == Some(s.altitude)
  {
    ChildHasAltitudeTag(inherited, s);
    TagReadsBack(AltitudeKey, AltitudeName(s.altitude));
    AltitudeOfTagged(ChildConstraints(inherited, s), ConstraintTag(AltitudeKey, AltitudeName(s.altitude)), s.altitude);
  }

  lemma AltitudeOfTagged(constraints: seq<string>, raw: string, altitude: Altitude)
    requires raw in constraints && KeyOf(raw) == Some(AltitudeKey) && ValueOf(raw) == AltitudeName(altitude)
    requires WellTagged(constraints)
    ensures MeaningOf(constraints).altitude == Some(altitude)
  {
    var values := Values(constraints, AltitudeKey);
    TagIsAValue(constraints, raw, AltitudeKey);
    assert AltitudeName(altitude) in values && |values| <= 1;
    assert values[0] == AltitudeName(altitude);
  }

  /** A child's free-form constraints extend its parent's. */
  lemma ChildInheritsFree(grandparents: seq<string>, s: StorySpec)
    ensures Free(grandparents) <= Free(ChildConstraints(Free(grandparents), s))
  {
    var rest := GetOr(s.constraints) + DerivedTags(s);
    FreeHasNoValues(grandparents, AltitudeKey);
    FreeOfConcat(Free(grandparents), rest);
    ChildConstraintsSplit(Free(grandparents), s);
  }

  lemma ChildConstraintsSplit(inherited: seq<string>, s: StorySpec)
    ensures ChildConstraints(inherited, s) == inherited + (GetOr(s.constraints) + DerivedTags(s))
  {}

  /** Everything the ledger relies on of the `index`-th child. */
  predicate IsChild(parent: TaskContract, child: TaskContract, index: nat) {
    && ValidTask(child) && child.id == ChildId(parent.id, index + 1) && child.parent == Some(parent.id)
    && child.overlay == parent.overlay && Rank(child.authorityCeiling) <= Rank(parent.authorityCeiling)
    && Rank(child.authorityCeiling) <= Rank(Suggest) && PositiveBudget(child.budget)
    && WellTagged(child.constraints) && MeaningOf(child.constraints).altitude.Some?
    && RungBelow(MeaningOf(parent.constraints).altitude, MeaningOf(child.constraints).altitude.value)
    && Free(parent.constraints) <= Free(child.constraints)
  }

  lemma ChildIsValid(parent: TaskContract, s: StorySpec, index: nat)
    requires ValidTask(parent) && ValidStory(s)
    ensures ValidTask(ToChild(parent, Free(parent.constraints), s, index))
  {
    FreeIsASelection(parent.constraints);
    forall c | c in ChildConstraints(Free(parent.constraints), s)
      ensures c != ""
    {
      assert c in Free(parent.constraints) || c in GetOr(s.constraints) || c in DerivedTags(s);
    }
  }

  lemma ChildrenAreSound(parent: TaskContract, subtasks: seq<StorySpec>, i: nat)
    requires Acceptable(parent, subtasks) && i < |subtasks|
    ensures IsChild(parent, ToChild(parent, Free(parent.constraints), subtasks[i], i), i)
  {
    assert ValidStory(subtasks[i]) && WellTagged(ChildConstraints(Free(parent.constraints), subtasks[i]));
    ChildAltitudeTag(Free(parent.constraints), subtasks[i]);
    ChildInheritsFree(parent.constraints, subtasks[i]);
    ChildIsValid(parent, subtasks[i], i);
  }

  // ----- child ids -----

  /** A child id determines its parent and its number. */
  lemma ChildIdInjective(p: string, j: nat, q: string, k: nat)
    requires ChildId(p, j) == ChildId(q, k)
    ensures p == q && j == k
  {
    var s := ChildId(p, j);
    assert s[|p|] == '.' && s[|q|] == '.';
    assert forall i :: |p| < i < |s| ==> s[i] == Decimal(j)[i - |p| - 1];
    assert forall i :: |q| < i < |s| ==> s[i] == Decimal(k)[i - |q| - 1];
    assert !IsDigit('.');
    assert |p| == |q|;
    assert p == s[..|p|] && q == s[..|q|];
    assert Decimal(j) == s[|p| + 1..] && Decimal(k) == s[|q| + 1..];
    DecimalInjective(j, k);
  }

  // ----- labels -----

  predicate LabelSafe(text: string) {
    && 0 < |text| <= 80 && IsAlphanumeric(text[0])
    && forall i :: 0 <= i < |text| ==> IsAlphanumeric(text[i]) || text[i] in " _.-/:"
  }

  function AssignLabel(value: string): seq<string> {
    if "agent." <= value then ["agent:" + value[|"agent."|..]] else []
  }

  /** The labels before the safety check. */
  function RawLabels(tags: Tags): seq<string> {
    (if tags.altitude.Some? then [ConstraintTag(AltitudeKey, AltitudeName(tags.altitude.value))] else [])
    + OptionalTag(TrackKey, tags.track) + OptionalTag(SprintKey, tags.sprint)
    + (if tags.assign.Some? then AssignLabel(tags.assign.value) else [])
  }

  function Deduped(xs: seq<string>): seq<string> {
    if xs == [] then []
    else
      var init := Deduped(xs[..|xs| - 1]);
      if xs[|xs| - 1] in init then init else init + [xs[|xs| - 1]]
  }

  lemma {:induction false} DedupedKeepsMembers(xs: seq<string>)
    ensures forall x :: x in Deduped(xs) <==> x in xs
    ensures forall i, j :: 0 <= i < j < |Deduped(xs)| ==> Deduped(xs)[i] != Deduped(xs)[j]
  {
    if xs != [] {
      DedupedKeepsMembers(xs[..|xs| - 1]);
      assert xs == xs[..|xs| - 1] + [xs[|xs| - 1]];
    }
  }

  /** None stands for the thrown unsafe-text (or unreadable-tag) error. */
  function ProgramLabels(constraints: seq<string>): Option<seq<string>> {
    match TagsOf(constraints)
    case Err(_) => None
    case Ok(tags) =>
      if forall text | text in Deduped(RawLabels(tags)) :: LabelSafe(text) then Some(Deduped(RawLabels(tags))) else None
  }

  predicate ShortLabelValue(v: Option<string>, limit: nat) { v.Some? ==> |v.value| <= limit }

  /** A safe tag value makes a safe label exactly when the label stays within eighty characters. */
  lemma ValueLabelSafe(key: TagKey, v: string)
    requires SafeValue(v)
    ensures LabelSafe(ConstraintTag(key, v)) <==> |KeyName(key)| + 1 + |v| <= 80
  {}

  lemma AgentLabelSafe(a: Assignee)
    ensures AssignLabel("agent." + AssigneeName(a)) == ["agent:" + AssigneeName(a)]
    ensures LabelSafe("agent:" + AssigneeName(a))
  {}

  /**
   * The unsafe-label error is documented as unreachable from decomposed input, yet a long track or sprint reaches it.
   * A decomposed child gets its labels exactly when its track has at most 74 characters and its sprint at most 73.
   */
  lemma LabelsOfAChild(inherited: seq<string>, s: StorySpec)
    requires WellTagged(ChildConstraints(inherited, s))
    ensures
      var tags := MeaningOf(ChildConstraints(inherited, s));
      ProgramLabels(ChildConstraints(inherited, s)).Some? <==>
        ShortLabelValue(tags.track, 74) && ShortLabelValue(tags.sprint, 73)
  {
    ChildIsAssigned(inherited, s);
    LabelsOfReadable(ChildConstraints(inherited, s), s.assignTo);
  }

  lemma ChildIsAssigned(inherited: seq<string>, s: StorySpec)
    ensures MeaningOf(ChildConstraints(inherited, s)).assign == Some("agent." + AssigneeName(s.assignTo))
  {
    var init := inherited + GetOr(s.constraints) + [ConstraintTag(AltitudeKey, AltitudeName(s.altitude))]
                + OptionalTag(TrackKey, s.track) + OptionalTag(SprintKey, s.sprint);
    LastAssignment(init, s.assignTo);
    EndsWithAssignment(inherited, GetOr(s.constraints), s);
  }

  lemma EndsWithAssignment(inherited: seq<string>, own: seq<string>, s: StorySpec)
    requires own == GetOr(s.constraints)
    ensures
      ChildConstraints(inherited, s) ==
      (inherited + own + [ConstraintTag(AltitudeKey, AltitudeName(s.altitude))] + OptionalTag(TrackKey, s.track) +
       OptionalTag(SprintKey, s.sprint))
      + [ConstraintTag(AssignKey, "agent." + AssigneeName(s.assignTo))]
  {}

  lemma LabelsOfReadable(constraints: seq<string>, a: Assignee)
    requires WellTagged(constraints) && MeaningOf(constraints).assign == Some("agent." + AssigneeName(a))
    ensures
      var tags := MeaningOf(constraints);
      ProgramLabels(constraints).Some? <==> ShortLabelValue(tags.track, 74) && ShortLabelValue(tags.sprint, 73)
  {
    ReaderIsExact(constraints);
    LabelsOfTags(MeaningOf(constraints), a);
  }

  lemma LabelsOfTags(tags: Tags, a: Assignee)
    requires OptionallySafe(tags.track) && OptionallySafe(tags.sprint)
      && tags.assign == Some("agent." + AssigneeName(a))
    ensures (forall text | text in Deduped(RawLabels(tags)) :: LabelSafe(text)) <==>
      ShortLabelValue(tags.track, 74) && ShortLabelValue(tags.sprint, 73)
  {
    DedupedKeepsMembers(RawLabels(tags));
    AgentLabelSafe(a);
    OptionalLabelSafe(TrackKey, tags.track);
    OptionalLabelSafe(SprintKey, tags.sprint);
    AltitudeLabelSafe(tags.altitude);
    forall text
      ensures text in RawLabels(tags) <==>
        || (tags.altitude.Some? && text == ConstraintTag(AltitudeKey, AltitudeName(tags.altitude.value)))
        || text in OptionalTag(TrackKey, tags.track) || text in OptionalTag(SprintKey, tags.sprint)
        || text == "agent:" + AssigneeName(a)
    {}
  }

  predicate OptionallySafe(v: Option<string>) { v.Some? ==> SafeValue(v.value) }

  lemma OptionalLabelSafe(key: TagKey, v: Option<string>)
    requires OptionallySafe(v)
    ensures (forall text | text in OptionalTag(key, v) :: LabelSafe(text)) <==> ShortLabelValue(v, 79 - |KeyName(key)|)
  {
    if v.Some? {
      ValueLabelSafe(key, v.value);
      assert ConstraintTag(key, v.value) in OptionalTag(key, v);
    }
  }

  lemma AltitudeLabelSafe(a: Option<Altitude>)
    ensures a.Some? ==> LabelSafe(ConstraintTag(AltitudeKey, AltitudeName(a.value)))
  {}

  lemma LastAssignment(init: seq<string>, a: Assignee)
    ensures Last(Values(init + [ConstraintTag(AssignKey, "agent." + AssigneeName(a))], AssignKey)) ==
      Some("agent." + AssigneeName(a))
  {
    TagReadsBack(AssignKey, "agent." + AssigneeName(a));
    ValuesOfSnoc(init, ConstraintTag(AssignKey, "agent." + AssigneeName(a)), AssignKey);
  }

  // ----- what a child keeps of its story -----

  lemma LoneValue(constraints: seq<string>, key: TagKey, v: string)
    requires ConstraintTag(key, v) in constraints && |Values(constraints, key)| <= 1
    ensures First(Values(constraints, key)) == Some(v)
  {
    TagReadsBack(key, v);
    TagIsAValue(constraints, ConstraintTag(key, v), key);
  }

  lemma GroupingReadsBack(inherited: seq<string>, s: StorySpec)
    requires WellTagged(ChildConstraints(inherited, s))
    ensures s.track.Some? ==> First(Values(ChildConstraints(inherited, s), TrackKey)) == s.track
    ensures s.sprint.Some? ==> First(Values(ChildConstraints(inherited, s), SprintKey)) == s.sprint
  {
    var constraints := ChildConstraints(inherited, s);
    if s.track.Some? {
      DerivedTagIsThere(inherited, s, OptionalTag(TrackKey, s.track)[0]);
      LoneValue(constraints, TrackKey, s.track.value);
    }
    if s.sprint.Some? {
      DerivedTagIsThere(inherited, s, OptionalTag(SprintKey, s.sprint)[0]);
      LoneValue(constraints, SprintKey, s.sprint.value);
    }
  }

  lemma DerivedTagIsThere(inherited: seq<string>, s: StorySpec, raw: string)
    requires raw in DerivedTags(s)
    ensures raw in ChildConstraints(inherited, s)
  {}

  /**
   * A child keeps its story's goal and budget, holds the lower of its parent's authority and suggest, and its tags read
   * back as the story's altitude, grouping and assignee, whatever constraints it inherited.
   */
  lemma StoryReadsBack(parent: TaskContract, subtasks: seq<StorySpec>, i: nat)
    requires Acceptable(parent, subtasks) && i < |subtasks|
    ensures
      var s := subtasks[i];
      var child := ToChildren(parent, Free(parent.constraints), subtasks)[i];
      var tags := MeaningOf(child.constraints);
      && child.goal == s.goal && child.budget == s.budget
      && child.authorityCeiling in {parent.authorityCeiling, Suggest}
      && Rank(child.authorityCeiling) <= Rank(parent.authorityCeiling) && Rank(child.authorityCeiling) <= Rank(Suggest)
      && tags.altitude == Some(s.altitude) && tags.assign == Some("agent." + AssigneeName(s.assignTo))
      && (s.track.Some? ==> tags.track == s.track) && (s.sprint.Some? ==> tags.sprint == s.sprint)
  {
    var inherited := Free(parent.constraints);
    assert WellTagged(ChildConstraints(inherited, subtasks[i]));
    ChildAltitudeTag(inherited, subtasks[i]);
    ChildIsAssigned(inherited, subtasks[i]);
    GroupingReadsBack(inherited, subtasks[i]);
  }
}
