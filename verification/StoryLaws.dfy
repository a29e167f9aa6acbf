/** What a decomposition makes of a story, which labels a task gets, and why a decomposition is refused. */
module StoryLaws {
  import opened Prelude
  import opened Text
  import opened ConstraintTags
  import opened Scrum

  // ----- a child, field by field -----

  function OptionalPart(key: string, value: Option<string>): seq<string> {
    if value.Some? then [key + value.value] else []
  }

  /** The id of the `k`-th child. */
  function Numbered(id: string, k: nat): string {
    id + "." + Decimal(k)
  }

  /** The `k`-th child as its parent and its story alone determine it. */
  predicate TellsStory(parent: TaskContract, s: StorySpec, k: nat, child: TaskContract) {
    && child.id == Numbered(parent.id, k) && child.parent == Some(parent.id)
    && child.goal == s.goal && child.budget == s.budget && child.overlay == parent.overlay
    && child.evidence == (if s.evidence.Some? then s.evidence.value else [])
    && child.definitionOfDone == (if s.definitionOfDone.Some? then s.definitionOfDone.value else [])
    && child.authorityCeiling == (if parent.authorityCeiling == Observe then Observe else Suggest)
    && child.constraints ==
         Free(parent.constraints) + (if s.constraints.Some? then s.constraints.value else [])
         + ["altitude:" + AltitudeName(s.altitude)]
         + OptionalPart("track:", s.track) + OptionalPart("sprint:", s.sprint)
         + ["assign:agent." + AssigneeName(s.assignTo)]
  }

  lemma TagsInWords(value: string)
    ensures ConstraintTag(AltitudeKey, value) == "altitude:" + value
      && ConstraintTag(TrackKey, value) == "track:" + value
    ensures ConstraintTag(SprintKey, value) == "sprint:" + value && ConstraintTag(AssignKey, value) == "assign:" + value
  {}

  lemma DerivedInWords(s: StorySpec)
    ensures DerivedTags(s) ==
      ["altitude:" + AltitudeName(s.altitude)] + OptionalPart("track:", s.track) + OptionalPart("sprint:", s.sprint)
      + ["assign:agent." + AssigneeName(s.assignTo)]
  {
    TagsInWords(AltitudeName(s.altitude));
    if s.track.Some? { TagsInWords(s.track.value); }
    if s.sprint.Some? { TagsInWords(s.sprint.value); }
    TagsInWords("agent." + AssigneeName(s.assignTo));
    assert "assign:" + ("agent." + AssigneeName(s.assignTo)) == "assign:agent." + AssigneeName(s.assignTo);
  }

  lemma ConstraintsInWords(inherited: seq<string>, s: StorySpec)
    ensures ChildConstraints(inherited, s) ==
      inherited + (if s.constraints.Some? then s.constraints.value else [])
      + ["altitude:" + AltitudeName(s.altitude)] + OptionalPart("track:", s.track) + OptionalPart("sprint:", s.sprint)
      + ["assign:agent." + AssigneeName(s.assignTo)]
  {
    DerivedInWords(s);
  }

  lemma ToChildTells(parent: TaskContract, s: StorySpec, index: nat)
    ensures TellsStory(parent, s, index + 1, ToChild(parent, Free(parent.constraints), s, index))
  {
    ConstraintsInWords(Free(parent.constraints), s);
  }

  lemma ChildrenAreMade(parent: TaskContract, stories: seq<StorySpec>, children: seq<TaskContract>)
    requires DecomposeGoal(parent, stories) == Ok(children)
    ensures children == ToChildren(parent, Free(parent.constraints), stories)
  {
    DecomposeIsExact(parent, stories);
  }

  lemma MadeChildTells(parent: TaskContract, stories: seq<StorySpec>, k: nat)
    requires 1 <= k <= |stories|
    ensures TellsStory(parent, stories[k - 1], k, ToChildren(parent, Free(parent.constraints), stories)[k - 1])
  {
    ToChildTells(parent, stories[k - 1], k - 1);
  }

  /**
   * An accepted decomposition yields one child a story, in order, each with every field its story's or its parent's.
   */
  lemma ChildrenTellTheirStories(parent: TaskContract, stories: seq<StorySpec>, children: seq<TaskContract>, k: nat)
    requires DecomposeGoal(parent, stories) == Ok(children)
    ensures |children| == |stories|
    ensures 1 <= k <= |stories| ==> TellsStory(parent, stories[k - 1], k, children[k - 1])
  {
    ChildrenAreMade(parent, stories, children);
    if 1 <= k <= |stories| { MadeChildTells(parent, stories, k); }
  }

  // ----- labels -----

  predicate Alphanumeric(c: char) { 'A' <= c <= 'Z' || 'a' <= c <= 'z' || '0' <= c <= '9' }

  /** One to eighty characters: a letter or digit, then letters, digits, spaces and `_.-/:`. */
  predicate LabelText(text: string) {
    && 1 <= |text| <= 80 && Alphanumeric(text[0])
    && forall i :: 0 <= i < |text| ==>
         Alphanumeric(text[i]) || text[i] == ' ' || text[i] == '_' || text[i] == '.' || text[i] == '-'
         || text[i] == '/' || text[i] == ':'
  }

  lemma LabelIsText(text: string)
    ensures LabelSafe(text) <==> LabelText(text)
  {}

  /** The label of an assignment: `agent.x` becomes `agent:x`, anything else has none. */
  function AgentPart(assign: Option<string>): seq<string> {
    if assign.Some? && "agent." <= assign.value then ["agent:" + assign.value[6..]] else []
  }

  /** The labels a readable list stands for, in order. */
  function LabelsFor(tags: Tags): seq<string> {
    (if tags.altitude.Some? then ["altitude:" + AltitudeName(tags.altitude.value)] else [])
    + OptionalPart("track:", tags.track) + OptionalPart("sprint:", tags.sprint) + AgentPart(tags.assign)
  }

  predicate AllDistinct(xs: seq<string>) {
    forall i, j :: 0 <= i < j < |xs| ==> xs[i] != xs[j]
  }

  lemma {:induction false} DistinctStay(xs: seq<string>)
    requires AllDistinct(xs)
    ensures Deduped(xs) == xs
  {
    if xs != [] {
      DistinctStay(xs[..|xs| - 1]);
      assert xs == xs[..|xs| - 1] + [xs[|xs| - 1]];
    }
  }

  lemma RawInWords(tags: Tags)
    ensures RawLabels(tags) == LabelsFor(tags)
  {
    if tags.altitude.Some? { TagsInWords(AltitudeName(tags.altitude.value)); }
    if tags.track.Some? { TagsInWords(tags.track.value); }
    if tags.sprint.Some? { TagsInWords(tags.sprint.value); }
  }

  /** Four parts of at most one text each, each with a prefix of its own. */
  lemma PrefixesDiffer(a: seq<string>, t: seq<string>, s: seq<string>, g: seq<string>)
    requires |a| <= 1 && |t| <= 1 && |s| <= 1 && |g| <= 1
    requires (a != [] ==> "altitude:" <= a[0]) && (t != [] ==> "track:" <= t[0])
    requires (s != [] ==> "sprint:" <= s[0]) && (g != [] ==> "agent:" <= g[0])
    ensures AllDistinct(a + t + s + g)
  {
    assert a != [] ==> a[0][0] == 'a' && a[0][1] == 'l';
    assert g != [] ==> g[0][0] == 'a' && g[0][1] == 'g';
    assert t != [] ==> t[0][0] == 't';
    assert s != [] ==> s[0][0] == 's';
  }

  lemma LabelsAreDistinct(tags: Tags)
    ensures AllDistinct(LabelsFor(tags))
  {
    var a := if tags.altitude.Some? then ["altitude:" + AltitudeName(tags.altitude.value)] else [];
    PrefixesDiffer(a, OptionalPart("track:", tags.track), OptionalPart("sprint:", tags.sprint), AgentPart(tags.assign));
  }

  /**
   * The labels of a task are exactly the texts its tags stand for, in order; it has none at all exactly when its tags
   * are unreadable or one of those texts is not a safe label.
   */
  lemma LabelsAreExact(constraints: seq<string>)
    ensures
      var texts := LabelsFor(MeaningOf(constraints));
      ProgramLabels(constraints) ==
        if WellTagged(constraints) && (forall text :: text in texts ==> LabelText(text)) then Some(texts) else None
  {
    ReaderIsExact(constraints);
    var tags := MeaningOf(constraints);
    RawInWords(tags);
    LabelsAreDistinct(tags);
    DistinctStay(LabelsFor(tags));
    forall text { LabelIsText(text); }
  }

  /** What a child says about its story, its labels say too. */
  lemma LabelsOfAStory(inherited: seq<string>, s: StorySpec)
    requires ProgramLabels(ChildConstraints(inherited, s)).Some?
    ensures
      var tags := MeaningOf(ChildConstraints(inherited, s));
      ProgramLabels(ChildConstraints(inherited, s)).value ==
        ["altitude:" + AltitudeName(s.altitude)]
        + OptionalPart("track:", tags.track) + OptionalPart("sprint:", tags.sprint)
        + ["agent:" + AssigneeName(s.assignTo)]
  {
    LabelsAreExact(ChildConstraints(inherited, s));
    ChildAltitudeTag(inherited, s);
    ChildIsAssigned(inherited, s);
  }

  /** The five assignees by name. */
  lemma NamesTell(a: Assignee)
    ensures (a == Pm <==> AssigneeName(a) == "pm") && (a == Coder <==> AssigneeName(a) == "coder")
    ensures (a == Reviewer <==> AssigneeName(a) == "reviewer") && (a == Documenter <==> AssigneeName(a) == "documenter")
    ensures a == Researcher <==> AssigneeName(a) == "researcher"
  {}

  // ----- the schemas and the budget, field by field -----

  function EvidenceTexts(evidence: seq<Evidence>): seq<string> {
    seq(|evidence|, i requires 0 <= i < |evidence| => evidence[i].ref)
  }

  function CheckTexts(checks: seq<Check>): seq<string> {
    seq(|checks|, i requires 0 <= i < |checks| => checks[i].name)
    + seq(|checks|, i requires 0 <= i < |checks| => checks[i].command)
  }

  /** Every text of a story that its schema wants non-empty. */
  function StoryTexts(s: StorySpec): seq<string> {
    [s.goal] + (if s.constraints.Some? then s.constraints.value else [])
    + (if s.evidence.Some? then EvidenceTexts(s.evidence.value) else [])
    + (if s.definitionOfDone.Some? then CheckTexts(s.definitionOfDone.value) else [])
  }

  function TaskTexts(t: TaskContract): seq<string> {
    [t.id, t.goal, t.overlay] + (if t.parent.Some? then [t.parent.value] else []) + t.constraints
    + EvidenceTexts(t.evidence) + CheckTexts(t.definitionOfDone)
  }

  lemma EvidenceInWords(evidence: seq<Evidence>)
    ensures ValidEvidence(evidence) <==> "" !in EvidenceTexts(evidence)
  {
    var texts := EvidenceTexts(evidence);
    assert forall i :: 0 <= i < |evidence| ==> texts[i] == evidence[i].ref;
  }

  lemma ChecksInWords(checks: seq<Check>)
    ensures ValidChecks(checks) <==> "" !in CheckTexts(checks)
  {
    var texts, n := CheckTexts(checks), |checks|;
    forall c | c in checks
      ensures c.name in texts && c.command in texts
    {
      var i :| 0 <= i < n && checks[i] == c;
      assert texts[i] == c.name && texts[n + i] == c.command;
    }
    if "" in texts {
      var k :| 0 <= k < |texts| && texts[k] == "";
      assert checks[if k < n then k else k - n] in checks;
    }
  }

  /** A story is valid exactly when none of its texts is empty and it has something to spend on every dimension. */
  lemma StorySchema(s: StorySpec)
    ensures ValidStory(s) <==>
      "" !in StoryTexts(s) && s.budget.tokens > 0 && s.budget.usd > 0.0 && s.budget.wallClockMin > 0.0
  {
    EvidenceInWords(GetOr(s.evidence));
    ChecksInWords(GetOr(s.definitionOfDone));
    assert EvidenceTexts([]) == [] && CheckTexts([]) == [];
  }

  /** A contract is valid exactly when none of its texts is empty and no amount of its budget is negative. */
  lemma TaskSchema(t: TaskContract)
    ensures ValidTask(t) <==>
      "" !in TaskTexts(t) && t.budget.tokens >= 0 && t.budget.usd >= 0.0 && t.budget.wallClockMin >= 0.0
  {
    EvidenceInWords(t.evidence);
    ChecksInWords(t.definitionOfDone);
  }

  /** What a list of stories asks for in all. */
  function Asked(stories: seq<StorySpec>): Budget {
    if stories == [] then Budget(0, 0.0, 0.0)
    else
      var init, b := Asked(stories[..|stories| - 1]), stories[|stories| - 1].budget;
      Budget(init.tokens + b.tokens, init.usd + b.usd, init.wallClockMin + b.wallClockMin)
  }

  lemma {:induction false} SumsInWords(stories: seq<StorySpec>)
    ensures ChildSum(stories, Tokens) == Asked(stories).tokens as real
    ensures ChildSum(stories, Usd) == Asked(stories).usd
    ensures ChildSum(stories, WallClockMin) == Asked(stories).wallClockMin
  {
    if stories != [] { SumsInWords(stories[..|stories| - 1]); }
  }

  predicate Affordable(parent: TaskContract, stories: seq<StorySpec>) {
    var asked := Asked(stories);
    && asked.tokens <= parent.budget.tokens && asked.usd <= parent.budget.usd
    && asked.wallClockMin <= parent.budget.wallClockMin
  }

  lemma AffordableIsWithin(parent: TaskContract, stories: seq<StorySpec>)
    ensures WithinBudget(parent, stories) <==> Affordable(parent, stories)
  {
    SumsInWords(stories);
  }

  /** The first dimension, in the order tokens, usd, minutes, on which the stories ask for more than there is. */
  function Overspent(parent: TaskContract, stories: seq<StorySpec>): Option<Dimension> {
    var asked := Asked(stories);
    if asked.tokens > parent.budget.tokens then Some(Tokens)
    else if asked.usd > parent.budget.usd then Some(Usd)
    else if asked.wallClockMin > parent.budget.wallClockMin then Some(WallClockMin)
    else None
  }

  // ----- why a decomposition is refused -----

  predicate FirstInvalid(stories: seq<StorySpec>, i: nat) {
    i < |stories| && !ValidStory(stories[i]) && forall j :: 0 <= j < i ==> ValidStory(stories[j])
  }

  predicate FirstUnreadable(parent: TaskContract, stories: seq<StorySpec>, i: nat) {
    var free := Free(parent.constraints);
    && i < |stories| && !WellTagged(ChildConstraints(free, stories[i]))
    && forall j :: 0 <= j < i ==> WellTagged(ChildConstraints(free, stories[j]))
  }

  /** The altitude every child of a node of this altitude must have. */
  predicate MustBe(parent: Option<Altitude>, child: Altitude) {
    (parent == Some(Epic) && child == Story) || (parent == Some(Story) && child == Task)
  }

  predicate FirstMisplaced(altitude: Option<Altitude>, stories: seq<StorySpec>, i: nat, expected: Altitude) {
    && i < |stories| && MustBe(altitude, expected) && stories[i].altitude != expected
    && forall j :: 0 <= j < i ==> stories[j].altitude == expected
  }

  /** When each error is reported; the checks come in this order, so an error also says what was in order. */
  ghost predicate RefusedFor(parent: TaskContract, stories: seq<StorySpec>, e: DecomposeError) {
    var altitude := MeaningOf(parent.constraints).altitude;
    if !ValidTask(parent) || !WellTagged(parent.constraints) then e == InvalidParent
    else if exists i :: FirstInvalid(stories, i) then e.InvalidStory? && FirstInvalid(stories, e.index)
    else if altitude == Some(Task) then e == LeafParent(Task)
    else if exists i, expected :: FirstMisplaced(altitude, stories, i, expected) then
      e.WrongAltitude? && FirstMisplaced(altitude, stories, e.index, e.expected)
        && e.actual == stories[e.index].altitude
    else if Overspent(parent, stories).Some? then e == BudgetExceeded(Overspent(parent, stories).value)
    else e.InvalidStory? && FirstUnreadable(parent, stories, e.index)
  }

  lemma ReadableIsTagged(free: seq<string>, stories: seq<StorySpec>)
    ensures forall i :: 0 <= i < |stories| ==>
      (TagsOf(ChildConstraints(free, stories[i])).Ok? <==> WellTagged(ChildConstraints(free, stories[i])))
  {
    forall i | 0 <= i < |stories| { ReaderIsExact(ChildConstraints(free, stories[i])); }
  }

  lemma InvalidStoryIsFirst(stories: seq<StorySpec>)
    ensures match FirstFailure(stories, ValidStory)
            case Some(i) => FirstInvalid(stories, i)
            case None => forall i :: !FirstInvalid(stories, i)
  {}

  lemma MisplacedIsFirst(altitude: Option<Altitude>, stories: seq<StorySpec>)
    ensures match CheckAltitudeDescent(altitude, stories)
            case None =>
              altitude != Some(Task) && forall i, expected :: !FirstMisplaced(altitude, stories, i, expected)
            case Some(e) =>
              if altitude == Some(Task) then e == LeafParent(Task)
              else
                && e.WrongAltitude? && FirstMisplaced(altitude, stories, e.index, e.expected)
                && e.actual == stories[e.index].altitude
  {}

  lemma OverspentIsFirst(parent: TaskContract, stories: seq<StorySpec>)
    ensures CheckBudgetInvariant(parent, stories) ==
      match Overspent(parent, stories) case None => None case Some(d) => Some(BudgetExceeded(d))
  {
    SumsInWords(stories);
  }

  lemma UnreadableIsFirst(parent: TaskContract, stories: seq<StorySpec>)
    ensures Children(parent, Free(parent.constraints), stories).Err? ==>
      var e := Children(parent, Free(parent.constraints), stories).error;
      e.InvalidStory? && FirstUnreadable(parent, stories, e.index)
  {
    ReadableIsTagged(Free(parent.constraints), stories);
  }

  /** A decomposition that is refused is refused for the first of its faults, in the order of the checks. */
  lemma RefusalIsTheFirstFault(parent: TaskContract, stories: seq<StorySpec>)
    ensures DecomposeGoal(parent, stories).Err? ==> RefusedFor(parent, stories, DecomposeGoal(parent, stories).error)
  {
    ReaderIsExact(parent.constraints);
    InvalidStoryIsFirst(stories);
    MisplacedIsFirst(MeaningOf(parent.constraints).altitude, stories);
    OverspentIsFirst(parent, stories);
    UnreadableIsFirst(parent, stories);
  }

  /** A decomposition is accepted exactly when it has none of these faults. */
  lemma AcceptedIsFaultless(parent: TaskContract, stories: seq<StorySpec>)
    ensures DecomposeGoal(parent, stories).Ok? <==>
      var altitude := MeaningOf(parent.constraints).altitude;
      && ValidTask(parent) && WellTagged(parent.constraints) && altitude != Some(Task)
      && (forall i :: 0 <= i < |stories| ==> ValidStory(stories[i]))
      && (forall i :: 0 <= i < |stories| ==> altitude == None || MustBe(altitude, stories[i].altitude))
      && Affordable(parent, stories)
      && forall i :: 0 <= i < |stories| ==> WellTagged(ChildConstraints(Free(parent.constraints), stories[i]))
  {
    DecomposeIsExact(parent, stories);
    AffordableIsWithin(parent, stories);
    DescentInWords(MeaningOf(parent.constraints).altitude, stories);
  }

  lemma DescentInWords(altitude: Option<Altitude>, stories: seq<StorySpec>)
    ensures AllDescend(altitude, stories) <==>
      altitude != Some(Task)
      && forall i :: 0 <= i < |stories| ==> altitude == None || MustBe(altitude, stories[i].altitude)
  {}
}
