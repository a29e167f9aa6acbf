/** What a brief shows: the text, charge and sources of every section, and how much of a draft a budget admits. */
module BriefWords {
  import opened Text
  import opened BriefBudget

  function FirstTexts(items: seq<Item>, k: nat): seq<string>
    requires k <= |items|
  {
    seq(k, i requires 0 <= i < k => items[i].text)
  }

  function FirstRefs(items: seq<Item>, k: nat): seq<string>
    requires k <= |items|
  {
    seq(k, i requires 0 <= i < k => items[i].ref)
  }

  /** The first `k` texts, one a line, and, when some are left out, a line that says how many of how many. */
  function Shown(items: seq<Item>, k: nat): string
    requires k <= |items|
  {
    var n := |items|;
    Join(FirstTexts(items, k), "\n") +
    (if k == n then "" else "\n[budget: dropped " + Decimal(n - k) + " of " + Decimal(n) + " items]")
  }

  lemma NoticeInWords(text: string, dropped: nat, total: nat)
    ensures text + "\n" + DropNotice(dropped, total) ==
      text + ("\n[budget: dropped " + Decimal(dropped) + " of " + Decimal(total) + " items]")
  {}

  lemma TextsInWords(items: seq<Item>, k: nat)
    requires k <= |items|
    ensures Texts(items[..k]) == FirstTexts(items, k)
  {}

  lemma WholeInWords(items: seq<Item>)
    ensures Render(items) == Shown(items, |items|)
  {
    TextsInWords(items, |items|);
    assert items[..|items|] == items && Render(items) + "" == Render(items);
  }

  lemma PartInWords(items: seq<Item>, k: nat)
    requires k < |items|
    ensures Truncated(items, k) == Shown(items, k)
  {
    TextsInWords(items, k);
    NoticeInWords(Join(FirstTexts(items, k), "\n"), |items| - k, |items|);
  }

  lemma ContentInWords(items: seq<Item>, k: nat)
    requires k <= |items|
    ensures Content(items, k) == Shown(items, k)
  {
    if k == |items| {
      WholeInWords(items);
    } else {
      PartInWords(items, k);
    }
  }

  /** Four characters a token, a part of four counting as one. */
  predicate Charges(tokens: nat, text: string) {
    4 * tokens - 4 < |text| <= 4 * tokens
  }

  lemma TokensInWords(text: string)
    ensures Charges(EstimateTokens(text), text)
    ensures forall cap: nat :: EstimateTokens(text) <= cap <==> |text| <= 4 * cap
  {}

  /**
   * A section shows the first `k` items of a draft: its text, what it is charged, whose it is, and every source once.
   */
  predicate Shows(section: Section, draft: SectionDraft, k: nat) {
    && section.name == draft.name && section.priority == draft.priority && k <= |draft.items|
    && section.content == Shown(draft.items, k) && Charges(section.tokens, section.content)
    && section.provenance ==
         FirstOccurrences(FirstRefs(draft.items, k)) + (if k < |draft.items| then ["compiler:budget-drop"] else [])
  }

  lemma MadeSectionShows(draft: SectionDraft, k: nat)
    requires k <= |draft.items|
    ensures Shows(MakeSection(draft, k), draft, k)
  {
    ContentInWords(draft.items, k);
    TokensInWords(Content(draft.items, k));
    assert Refs(draft.items[..k]) == FirstRefs(draft.items, k);
  }

  /** What a draft may cost: what remains, or its own cap when that is less. */
  function Allowance(draft: SectionDraft, caps: Caps, remaining: nat): nat {
    if draft.name in caps && caps[draft.name] < remaining then caps[draft.name] else remaining
  }

  /** The first `j` items with their notice fit into `cap` tokens. */
  predicate ShownFits(items: seq<Item>, j: nat, cap: nat)
    requires j <= |items|
  {
    |Shown(items, j)| <= 4 * cap
  }

  lemma FitsInWords(items: seq<Item>, j: nat, cap: nat)
    requires j <= |items|
    ensures ShownFits(items, j, cap) <==> EstimateTokens(Content(items, j)) <= cap
  {
    ContentInWords(items, j);
    TokensInWords(Content(items, j));
  }

  lemma PartsInWords(items: seq<Item>, cap: nat)
    ensures ShownFits(items, |items|, cap) <==> EstimateTokens(Render(items)) <= cap
    ensures forall j :: 1 <= j < |items| ==> (ShownFits(items, j, cap) <==> TruncationFits(items, j, cap))
    ensures forall j :: 1 <= j < |items| && ShownFits(items, j, cap) ==> ShownFits(items, 1, cap)
  {
    FitsInWords(items, |items|, cap);
    forall j | 1 <= j < |items|
      ensures ShownFits(items, j, cap) <==> TruncationFits(items, j, cap)
      ensures ShownFits(items, j, cap) ==> ShownFits(items, 1, cap)
    {
      FitsInWords(items, j, cap);
      FitsInWords(items, 1, cap);
      TruncationMonotone(items, 1, j);
      TokensGrowWithLength(Truncated(items, 1), Truncated(items, j));
    }
  }

  /** All of it when the whole fits; else the longest proper part that fits. */
  predicate Longest(items: seq<Item>, k: nat, cap: nat) {
    && k <= |items| && ShownFits(items, k, cap) && (k == |items| <==> ShownFits(items, |items|, cap))
    && (k < |items| ==> k >= 1 && forall j :: k < j <= |items| ==> !ShownFits(items, j, cap))
  }

  /** Not even one item with its notice fits. */
  predicate NothingFits(items: seq<Item>, cap: nat) {
    items != [] && forall j :: 1 <= j <= |items| ==> !ShownFits(items, j, cap)
  }

  lemma FitInWords(items: seq<Item>, cap: nat)
    ensures
      match FitItems(items, cap)
      case Some(k) => Longest(items, k, cap)
      case None => NothingFits(items, cap)
  {
    FitIsOptimal(items, cap);
    PartsInWords(items, cap);
  }

  /** A cap of its own, no more than what remains. */
  predicate OwnCap(draft: SectionDraft, caps: Caps, remaining: nat) {
    draft.name in caps && caps[draft.name] <= remaining
  }

  /**
   * How much of a draft is admitted: as much as fits its allowance; and when not even one item does, the draft is
   * passed over for its own cap, or ends the brief when the total is what it does not fit.
   */
  lemma AdmitInWords(draft: SectionDraft, caps: Caps, remaining: nat)
    ensures
      match Admit(draft, caps, remaining)
      case Keep(k) => Longest(draft.items, k, Allowance(draft, caps, remaining))
      case Skip => OwnCap(draft, caps, remaining) && NothingFits(draft.items, Allowance(draft, caps, remaining))
      case Stop => !OwnCap(draft, caps, remaining) && NothingFits(draft.items, Allowance(draft, caps, remaining))
  {
    assert CapFor(caps, draft.name, remaining) == Allowance(draft, caps, remaining);
    FitInWords(draft.items, Allowance(draft, caps, remaining));
  }

  // ----- whole briefs -----

  predicate ShowsAt(sections: seq<Section>, drafts: seq<SectionDraft>, owners: seq<nat>, counts: seq<nat>, i: nat) {
    && i < |sections| && i < |owners| && i < |counts| && owners[i] < |drafts|
    && Shows(sections[i], drafts[owners[i]], counts[i])
  }

  predicate Increasing(owners: seq<nat>) {
    forall i, j :: 0 <= i < j < |owners| ==> owners[i] < owners[j]
  }

  /** The sections are those of drafts `owners`, in draft order, each with its first `counts` items. */
  predicate ShowsDrafts(sections: seq<Section>, drafts: seq<SectionDraft>, owners: seq<nat>, counts: seq<nat>) {
    && |owners| == |sections| && |counts| == |sections| && Increasing(owners)
    && forall i: nat :: i < |sections| ==> ShowsAt(sections, drafts, owners, counts, i)
  }

  lemma LaterDrafts(sections: seq<Section>, drafts: seq<SectionDraft>, owners: seq<nat>, counts: seq<nat>)
    returns (shifted: seq<nat>)
    requires drafts != [] && ShowsDrafts(sections, drafts[1..], owners, counts)
    ensures ShowsDrafts(sections, drafts, shifted, counts) && forall i :: 0 <= i < |shifted| ==> shifted[i] > 0
  {
    shifted := seq(|owners|, i requires 0 <= i < |owners| => owners[i] + 1);
    forall i: nat | i < |sections|
      ensures ShowsAt(sections, drafts, shifted, counts, i)
    {
      assert ShowsAt(sections, drafts[1..], owners, counts, i);
    }
  }

  lemma FirstDraft(section: Section, sections: seq<Section>, drafts: seq<SectionDraft>, owners: seq<nat>,
                   counts: seq<nat>, k: nat)
    requires drafts != [] && Shows(section, drafts[0], k) && ShowsDrafts(sections, drafts, owners, counts)
    requires forall i :: 0 <= i < |owners| ==> owners[i] > 0
    ensures ShowsDrafts([section] + sections, drafts, [0] + owners, [k] + counts)
  {
    var all := [section] + sections;
    forall i: nat | i < |all|
      ensures ShowsAt(all, drafts, [0] + owners, [k] + counts, i)
    {
      if i > 0 { assert ShowsAt(sections, drafts, owners, counts, i - 1); }
    }
  }

  /** Every section of a brief shows the first items of a draft of its own, and the sections keep the drafts' order. */
  lemma {:induction false} SectionsAreTold(drafts: seq<SectionDraft>, total: nat, caps: Caps)
    returns (owners: seq<nat>, counts: seq<nat>)
    ensures ShowsDrafts(FitToBudget(drafts, total, caps), drafts, owners, counts)
    decreases |drafts|
  {
    if drafts == [] {
      owners, counts := [], [];
    } else {
      var a := Admit(drafts[0], caps, total);
      var next := NextOf(drafts[0], total, a);
      BriefUnfolds(drafts, total, caps, a, next);
      AdmissionCases(drafts[0], total, a);
      owners, counts := [], [];
      if next.Some? {
        owners, counts := SectionsAreTold(drafts[1..], next.value, caps);
        owners := LaterDrafts(FitToBudget(drafts[1..], next.value, caps), drafts, owners, counts);
      }
      if a.Keep? {
        MadeSectionShows(drafts[0], a.kept);
        FirstDraft(MakeSection(drafts[0], a.kept), FitToBudget(drafts[1..], next.value, caps), drafts, owners, counts,
                   a.kept);
        owners, counts := [0] + owners, [a.kept] + counts;
      }
    }
  }

  /** What becomes of a draft when `left` tokens are left. */
  datatype Fate = Taken | PassedOver | Ended

  /** A draft of which nothing fits is passed over when its own cap excludes it, and ends the brief otherwise. */
  function FateOf(draft: SectionDraft, caps: Caps, left: nat): Fate {
    if !NothingFits(draft.items, Allowance(draft, caps, left)) then Taken
    else if OwnCap(draft, caps, left) then PassedOver
    else Ended
  }

  /** The section shows as much of the draft as its allowance admits. */
  ghost predicate ShowsLongest(section: Section, draft: SectionDraft, caps: Caps, left: nat) {
    exists k: nat :: Longest(draft.items, k, Allowance(draft, caps, left)) && Shows(section, draft, k)
  }

  type Fates = (SectionDraft, nat) -> Fate
  type Showing = (Section, SectionDraft, nat) -> bool

  /** Draft by draft: a taken one is shown and charged to what is left, and nothing follows the one that ends it. */
  ghost predicate Follows(fate: Fates, shows: Showing, sections: seq<Section>, drafts: seq<SectionDraft>, left: nat) {
    if drafts == [] then sections == []
    else match fate(drafts[0], left)
      case Ended => sections == []
      case PassedOver => Follows(fate, shows, sections, drafts[1..], left)
      case Taken =>
        && sections != [] && shows(sections[0], drafts[0], left) && sections[0].tokens <= left
        && Follows(fate, shows, sections[1..], drafts[1..], left - sections[0].tokens)
  }

  /** The brief of these drafts, said without the fitter. */
  ghost predicate BriefOf(sections: seq<Section>, drafts: seq<SectionDraft>, total: nat, caps: Caps) {
    Follows(FatesUnder(caps), ShowingUnder(caps), sections, drafts, total)
  }

  function FatesUnder(caps: Caps): Fates {
    (draft, left: nat) => FateOf(draft, caps, left)
  }

  ghost function ShowingUnder(caps: Caps): Showing {
    (section, draft, left: nat) => ShowsLongest(section, draft, caps, left)
  }

  /** A fate and a showing that an admission complies with. */
  ghost predicate Complies(fate: Fates, shows: Showing, draft: SectionDraft, left: nat, caps: Caps) {
    var a := Admit(draft, caps, left);
    && (a.Stop? ==> fate(draft, left) == Ended) && (a.Skip? ==> fate(draft, left) == PassedOver)
    && (a.Keep? ==> fate(draft, left) == Taken && shows(MakeSection(draft, a.kept), draft, left))
  }

  lemma {:induction false} FitFollows(fate: Fates, shows: Showing, drafts: seq<SectionDraft>, left: nat, caps: Caps)
    requires forall d, n: nat :: Complies(fate, shows, d, n, caps)
    ensures Follows(fate, shows, FitToBudget(drafts, left, caps), drafts, left)
    decreases |drafts|
  {
    if drafts != [] {
      var a := Admit(drafts[0], caps, left);
      assert Complies(fate, shows, drafts[0], left, caps);
      if a.Skip? {
        FitFollows(fate, shows, drafts[1..], left, caps);
      } else if a.Keep? {
        FitFollows(fate, shows, drafts[1..], left - Cost(drafts[0], a.kept), caps);
      }
    }
  }

  lemma {:induction false} FollowsIsUnique(fate: Fates, shows: Showing, a: seq<Section>, b: seq<Section>,
                                           drafts: seq<SectionDraft>, left: nat)
    requires forall s, s', d, n: nat :: shows(s, d, n) && shows(s', d, n) ==> s == s'
    requires Follows(fate, shows, a, drafts, left) && Follows(fate, shows, b, drafts, left)
    ensures a == b
    decreases |drafts|
  {
    if drafts != [] {
      match fate(drafts[0], left)
      case Ended =>
      case PassedOver => FollowsIsUnique(fate, shows, a, b, drafts[1..], left);
      case Taken =>
        assert a[0] == b[0];
        FollowsIsUnique(fate, shows, a[1..], b[1..], drafts[1..], left - a[0].tokens);
        assert a == [a[0]] + a[1..] && b == [b[0]] + b[1..];
    }
  }

  lemma AdmissionComplies(draft: SectionDraft, caps: Caps, left: nat)
    ensures
      var a := Admit(draft, caps, left);
      && (a.Stop? ==> FateOf(draft, caps, left) == Ended) && (a.Skip? ==> FateOf(draft, caps, left) == PassedOver)
      && (a.Keep? ==>
            FateOf(draft, caps, left) == Taken && ShowsLongest(MakeSection(draft, a.kept), draft, caps, left))
  {
    AdmitInWords(draft, caps, left);
    var a := Admit(draft, caps, left);
    if a.Keep? {
      MadeSectionShows(draft, a.kept);
      LongestIsSomething(draft.items, a.kept, Allowance(draft, caps, left));
    }
  }

  lemma LongestIsSomething(items: seq<Item>, k: nat, cap: nat)
    requires Longest(items, k, cap)
    ensures !NothingFits(items, cap)
  {
    if items != [] { assert k >= 1; }
  }

  lemma LongestIsUnique(items: seq<Item>, j: nat, k: nat, cap: nat)
    requires Longest(items, j, cap) && Longest(items, k, cap)
    ensures j == k
  {}

  lemma ShownIsUnique(a: Section, b: Section, draft: SectionDraft, caps: Caps, left: nat)
    requires ShowsLongest(a, draft, caps, left) && ShowsLongest(b, draft, caps, left)
    ensures a == b
  {
    var cap := Allowance(draft, caps, left);
    var j: nat :| Longest(draft.items, j, cap) && Shows(a, draft, j);
    var k: nat :| Longest(draft.items, k, cap) && Shows(b, draft, k);
    LongestIsUnique(draft.items, j, k, cap);
  }

  /**
   * The fitted brief is the one and only brief so described: draft by draft, each shown at the longest that fits and
   * charged to what is left, passed over when only its own cap excludes it, and last when the total does.
   */
  lemma BriefIsTold(drafts: seq<SectionDraft>, total: nat, caps: Caps, sections: seq<Section>)
    ensures BriefOf(sections, drafts, total, caps) <==> sections == FitToBudget(drafts, total, caps)
  {
    var fate, shows := FatesUnder(caps), ShowingUnder(caps);
    forall draft, left: nat { AdmissionComplies(draft, caps, left); }
    FitFollows(fate, shows, drafts, total, caps);
    if Follows(fate, shows, sections, drafts, total) {
      forall a, b, draft, left: nat | shows(a, draft, left) && shows(b, draft, left)
        ensures a == b
      {
        ShownIsUnique(a, b, draft, caps, left);
      }
      FollowsIsUnique(fate, shows, sections, FitToBudget(drafts, total, caps), drafts, total);
    }
  }
}
