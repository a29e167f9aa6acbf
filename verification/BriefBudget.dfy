/** Hard-budget fitting of brief sections: whole items dropped from the end, in priority order, drops charged. */
module BriefBudget {
  import opened Prelude
  import opened Text

  datatype SectionName =
    | TaskSection | Claims | SemanticFacts | EpisodicSummaries | RepoProbes | SkillsIndex | SkillBodies | WorkshopIndex

  datatype Item = Item(text: string, ref: string)

  datatype SectionDraft = SectionDraft(name: SectionName, priority: nat, items: seq<Item>)

  datatype Section = Section(name: SectionName, content: string, tokens: nat, priority: nat, provenance: seq<string>)

  type Caps = map<SectionName, nat>

  const CHARS_PER_TOKEN := 4
  const DROP_NOTICE_REF := "compiler:budget-drop"

  /** A quarter of the length, rounded up. */
  function EstimateTokens(text: string): nat {
    (|text| + 3) / CHARS_PER_TOKEN
  }

  lemma TokensGrowWithLength(a: string, b: string)
    requires |a| <= |b|
    ensures EstimateTokens(a) <= EstimateTokens(b)
  {}

  // ----- fitting one section -----

  function Texts(items: seq<Item>): seq<string> {
    seq(|items|, i requires 0 <= i < |items| => items[i].text)
  }

  function Render(items: seq<Item>): string {
    Join(Texts(items), "\n")
  }

  function DropNotice(dropped: nat, total: nat): string {
    "[budget: dropped " + Decimal(dropped) + " of " + Decimal(total) + " items]"
  }

  /** The first `keep` items and the notice about the rest. */
  function Truncated(items: seq<Item>, keep: nat): string
    requires keep <= |items|
  {
    Render(items[..keep]) + "\n" + DropNotice(|items| - keep, |items|)
  }

  /** The content when `keep` items are kept. */
  function Content(items: seq<Item>, keep: nat): string
    requires keep <= |items|
  {
    if keep == |items| then Render(items) else Truncated(items, keep)
  }

  /** Try to keep `keep` items, then one less, down to one. */
  function KeepFrom(items: seq<Item>, cap: nat, keep: nat): Option<nat>
    requires keep <= |items|
  {
    if keep == 0 then None
    else if EstimateTokens(Truncated(items, keep)) <= cap then Some(keep)
    else KeepFrom(items, cap, keep - 1)
  }

  /** How many items are kept under `cap`; None drops the section. */
  function FitItems(items: seq<Item>, cap: nat): Option<nat> {
    if EstimateTokens(Render(items)) <= cap then Some(|items|)
    else if items == [] then None
    else KeepFrom(items, cap, |items| - 1)
  }

  method FitSection(items: seq<Item>, cap: nat) returns (kept: Option<nat>)
    ensures kept == FitItems(items, cap)
  {
    if EstimateTokens(Render(items)) <= cap { return Some(|items|); }
    var keep := |items| - 1;
    while keep >= 1
      invariant -1 <= keep < |items|
      invariant items != [] ==> keep >= 0 && KeepFrom(items, cap, |items| - 1) == KeepFrom(items, cap, keep)
    {
      if EstimateTokens(Truncated(items, keep)) <= cap { return Some(keep); }
      keep := keep - 1;
    }
    return None;
  }

  lemma {:induction false} JoinSnoc(parts: seq<string>, last: string, sep: string)
    requires parts != []
    ensures Join(parts + [last], sep) == Join(parts, sep) + sep + last
  {
    if |parts| > 1 {
      JoinSnoc(parts[1..], last, sep);
      assert (parts + [last])[1..] == parts[1..] + [last];
    } else {
      assert (parts + [last])[1..] == [last];
    }
  }

  lemma RenderStep(items: seq<Item>, keep: nat)
    requires 1 <= keep < |items|
    ensures |Render(items[..keep + 1])| == |Render(items[..keep])| + 1 + |items[keep].text|
  {
    assert Texts(items[..keep + 1]) == Texts(items[..keep]) + [items[keep].text];
    JoinSnoc(Texts(items[..keep]), items[keep].text, "\n");
  }

  lemma NoticeLength(dropped: nat, total: nat)
    ensures |DropNotice(dropped, total)| ==
      |"[budget: dropped "| + |Decimal(dropped)| + |" of "| + |Decimal(total)| + |" items]"|
  {}

  /** Keeping one more item never shrinks the truncated text, although the notice may lose a digit. */
  lemma TruncationGrows(items: seq<Item>, keep: nat)
    requires 1 <= keep && keep + 1 < |items|
    ensures |Truncated(items, keep)| <= |Truncated(items, keep + 1)|
  {
    RenderStep(items, keep);
    NoticeLength(|items| - keep, |items|);
    NoticeLength(|items| - keep - 1, |items|);
    DecimalLengthStep(|items| - keep - 1);
  }

  lemma {:induction false} TruncationMonotone(items: seq<Item>, j: nat, k: nat)
    requires 1 <= j <= k < |items|
    ensures |Truncated(items, j)| <= |Truncated(items, k)|
    decreases k - j
  {
    if j < k {
      TruncationGrows(items, j);
      TruncationMonotone(items, j + 1, k);
    }
  }

  predicate TruncationFits(items: seq<Item>, keep: nat, cap: nat)
    requires keep <= |items|
  {
    EstimateTokens(Truncated(items, keep)) <= cap
  }

  lemma {:induction false} KeepFromIsLargest(items: seq<Item>, cap: nat, keep: nat)
    requires keep < |items|
    ensures KeepFrom(items, cap, keep).Some? <==> keep >= 1 && TruncationFits(items, 1, cap)
    ensures KeepFrom(items, cap, keep).Some? ==>
      var k := KeepFrom(items, cap, keep).value;
      1 <= k <= keep && forall j :: 1 <= j <= keep ==> (TruncationFits(items, j, cap) <==> j <= k)
  {
    if keep >= 1 {
      forall j | 1 <= j <= keep { TruncationMonotone(items, j, keep); }
      if TruncationFits(items, keep, cap) {
        forall j | 1 <= j <= keep
          ensures TruncationFits(items, j, cap)
        {
          TokensGrowWithLength(Truncated(items, j), Truncated(items, keep));
        }
      } else {
        KeepFromIsLargest(items, cap, keep - 1);
        if keep > 1 { TokensGrowWithLength(Truncated(items, 1), Truncated(items, keep)); }
      }
    }
  }

  /**
   * The fitted prefix is optimal. Everything is kept exactly when the full text fits; otherwise the truncations that
   * fit are exactly the ones up to the kept count; and the section is dropped exactly when the full text does not fit
   * and neither does one item with its notice.
   */
  lemma FitIsOptimal(items: seq<Item>, cap: nat)
    ensures FitItems(items, cap).None? <==>
      EstimateTokens(Render(items)) > cap && (|items| <= 1 || !TruncationFits(items, 1, cap))
    ensures FitItems(items, cap) == Some(|items|) <==> EstimateTokens(Render(items)) <= cap
    ensures FitItems(items, cap).Some? && FitItems(items, cap).value < |items| ==>
      FitItems(items, cap).value >= 1
      && forall j :: 1 <= j < |items| ==> (TruncationFits(items, j, cap) <==> j <= FitItems(items, cap).value)
    ensures FitItems(items, cap).Some? ==>
      FitItems(items, cap).value <= |items| && EstimateTokens(Content(items, FitItems(items, cap).value)) <= cap
  {
    if EstimateTokens(Render(items)) > cap && items != [] {
      KeepFromIsLargest(items, cap, |items| - 1);
      var kept := FitItems(items, cap);
      assert kept.Some? ==> TruncationFits(items, kept.value, cap);
    }
  }

  /** A larger cap never keeps less. */
  lemma FitIsMonotone(items: seq<Item>, small: nat, large: nat)
    requires small <= large && FitItems(items, small).Some?
    ensures FitItems(items, large).Some? && FitItems(items, small).value <= FitItems(items, large).value
  {
    FitIsOptimal(items, small);
    FitIsOptimal(items, large);
    var k := FitItems(items, small).value;
    if k < |items| {
      assert TruncationFits(items, k, small) && TruncationFits(items, 1, small);
      assert TruncationFits(items, k, large) && TruncationFits(items, 1, large);
    }
  }

  // ----- provenance -----

  function Refs(items: seq<Item>): seq<string> {
    seq(|items|, i requires 0 <= i < |items| => items[i].ref)
  }

  /** First occurrences, in order. */
  function FirstOccurrences(refs: seq<string>): seq<string> {
    if refs == [] then []
    else
      var init := FirstOccurrences(refs[..|refs| - 1]);
      if refs[|refs| - 1] in refs[..|refs| - 1] then init else init + [refs[|refs| - 1]]
  }

  function ProvenanceOf(kept: seq<Item>, truncated: bool): seq<string> {
    FirstOccurrences(Refs(kept)) + if truncated then [DROP_NOTICE_REF] else []
  }

  method CollectProvenance(kept: seq<Item>, truncated: bool) returns (out: seq<string>)
    ensures out == ProvenanceOf(kept, truncated)
  {
    var seen: set<string> := {};
    out := [];
    for i := 0 to |kept|
      invariant out == FirstOccurrences(Refs(kept)[..i])
      invariant forall r :: r in seen <==> r in Refs(kept)[..i]
    {
      var ref := kept[i].ref;
      assert Refs(kept)[..i + 1] == Refs(kept)[..i] + [ref];
      if ref !in seen {
        seen := seen + {ref};
        out := out + [ref];
      }
    }
    assert Refs(kept)[..|kept|] == Refs(kept);
    if truncated { out := out + [DROP_NOTICE_REF]; }
  }

  predicate NoDuplicates(s: seq<string>) {
    forall i, j :: 0 <= i < j < |s| ==> s[i] != s[j]
  }

  lemma {:induction false} FirstOccurrencesAreDistinct(refs: seq<string>)
    ensures NoDuplicates(FirstOccurrences(refs))
    ensures forall r :: r in FirstOccurrences(refs) <==> r in refs
  {
    if refs != [] {
      FirstOccurrencesAreDistinct(refs[..|refs| - 1]);
      assert refs == refs[..|refs| - 1] + [refs[|refs| - 1]];
    }
  }

  /** Reading more items only appends: a source stays at the place of its first occurrence. */
  lemma {:induction false} FirstOccurrencesKeepOrder(refs: seq<string>, more: seq<string>)
    ensures FirstOccurrences(refs) <= FirstOccurrences(refs + more)
  {
    if more == [] {
      assert refs + more == refs;
    } else {
      FirstOccurrencesKeepOrder(refs, more[..|more| - 1]);
      assert (refs + more)[..|refs + more| - 1] == refs + more[..|more| - 1];
    }
  }

  /**
   * Section provenance is meant to be deduplicated, but the drop notice is appended unchecked: it is duplicate-free
   * exactly when the section is not truncated or no kept item carries the notice's own ref.
   */
  lemma ProvenanceDuplicates(kept: seq<Item>, truncated: bool)
    ensures NoDuplicates(ProvenanceOf(kept, truncated)) <==> !(truncated && DROP_NOTICE_REF in Refs(kept))
    ensures forall r :: r in ProvenanceOf(kept, truncated) <==> r in Refs(kept) || (truncated && r == DROP_NOTICE_REF)
  {
    var first, all := FirstOccurrences(Refs(kept)), ProvenanceOf(kept, truncated);
    FirstOccurrencesAreDistinct(Refs(kept));
    if truncated {
      assert all[|first|] == DROP_NOTICE_REF;
      if DROP_NOTICE_REF in first {
        var i :| 0 <= i < |first| && first[i] == DROP_NOTICE_REF;
        assert all[i] == all[|first|];
      }
    } else {
      assert all == first;
    }
  }

  // ----- fitting all sections -----

  predicate HasCap(caps: Caps, name: SectionName) { name in caps }

  /** The binding cap of a section: its own, if any, and what remains of the total. */
  function CapFor(caps: Caps, name: SectionName, remaining: nat): nat {
    if HasCap(caps, name) && caps[name] <= remaining then caps[name] else remaining
  }

  /** The section's own cap, not the total, was the binding one. */
  predicate OwnCapBinds(caps: Caps, name: SectionName, remaining: nat) {
    HasCap(caps, name) && caps[name] <= remaining
  }

  function Cost(draft: SectionDraft, kept: nat): nat
    requires kept <= |draft.items|
  {
    EstimateTokens(Content(draft.items, kept))
  }

  function MakeSection(draft: SectionDraft, kept: nat): Section
    requires kept <= |draft.items|
  {
    Section(draft.name, Content(draft.items, kept), Cost(draft, kept), draft.priority,
            ProvenanceOf(draft.items[..kept], kept < |draft.items|))
  }

  /** What happens to a draft: admitted with some items, skipped for its own cap, or the total is exhausted. */
  datatype Admission = Keep(kept: nat) | Skip | Stop

  function Admit(draft: SectionDraft, caps: Caps, remaining: nat): (r: Admission)
    ensures r.Keep? ==>
      r.kept <= |draft.items| && Cost(draft, r.kept) <= CapFor(caps, draft.name, remaining) <= remaining
    ensures r.Skip? ==> OwnCapBinds(caps, draft.name, remaining)
    ensures r.Stop? ==> !OwnCapBinds(caps, draft.name, remaining)
  {
    FitIsOptimal(draft.items, CapFor(caps, draft.name, remaining));
    match FitItems(draft.items, CapFor(caps, draft.name, remaining))
    case Some(kept) => Keep(kept)
    case None => if OwnCapBinds(caps, draft.name, remaining) then Skip else Stop
  }

  /** Admission with more remaining: nothing is kept less, and nothing skipped or kept is stopped. */
  lemma AdmitIsMonotone(draft: SectionDraft, caps: Caps, small: nat, large: nat)
    requires small <= large
    ensures Admit(draft, caps, small).Keep? ==>
      Admit(draft, caps, large).Keep? && Admit(draft, caps, small).kept <= Admit(draft, caps, large).kept
    ensures Admit(draft, caps, small).Skip? ==> Admit(draft, caps, large).Skip?
  {
    var c, c' := CapFor(caps, draft.name, small), CapFor(caps, draft.name, large);
    if FitItems(draft.items, c).Some? { FitIsMonotone(draft.items, c, c'); }
  }

  /** The admitted sections, front to back. A section its own cap excludes is skipped; an exhausted total stops. */
  function FitToBudget(drafts: seq<SectionDraft>, remaining: nat, caps: Caps): seq<Section> {
    if drafts == [] then []
    else match Admit(drafts[0], caps, remaining)
      case Stop => []
      case Skip => FitToBudget(drafts[1..], remaining, caps)
      case Keep(kept) =>
        [MakeSection(drafts[0], kept)] + FitToBudget(drafts[1..], remaining - Cost(drafts[0], kept), caps)
  }

  /** The section an admission adds. */
  function Admitted(draft: SectionDraft, a: Admission): seq<Section> {
    if a.Keep? && a.kept <= |draft.items| then [MakeSection(draft, a.kept)] else []
  }

  /** What remains after an admission; None once the total is exhausted. */
  function NextOf(draft: SectionDraft, remaining: nat, a: Admission): Option<nat> {
    match a
    case Stop => None
    case Skip => Some(remaining)
    case Keep(kept) =>
      if kept <= |draft.items| && Cost(draft, kept) <= remaining then Some(remaining - Cost(draft, kept)) else None
  }

  lemma BriefUnfolds(drafts: seq<SectionDraft>, total: nat, caps: Caps, a: Admission, next: Option<nat>)
    requires drafts != [] && a == Admit(drafts[0], caps, total) && next == NextOf(drafts[0], total, a)
    ensures FitToBudget(drafts, total, caps) ==
      Admitted(drafts[0], a) + (if next.Some? then FitToBudget(drafts[1..], next.value, caps) else [])
  {}

  lemma AdmissionCases(draft: SectionDraft, remaining: nat, a: Admission)
    requires a.Keep? ==> a.kept <= |draft.items| && Cost(draft, a.kept) <= remaining
    ensures a.Stop? ==> Admitted(draft, a) == [] && NextOf(draft, remaining, a) == None
    ensures a.Skip? ==> Admitted(draft, a) == [] && NextOf(draft, remaining, a) == Some(remaining)
    ensures a.Keep? ==> Admitted(draft, a) == [MakeSection(draft, a.kept)]
    ensures a.Keep? ==> NextOf(draft, remaining, a) == Some(remaining - Cost(draft, a.kept))
  {}

  method AdmitDraft(draft: SectionDraft, caps: Caps, remaining: nat) returns (r: Admission, admitted: seq<Section>)
    ensures r == Admit(draft, caps, remaining)
    ensures admitted == if r.Keep? then [MakeSection(draft, r.kept)] else []
  {
    var fitted := FitSection(draft.items, CapFor(caps, draft.name, remaining));
    if fitted.None? { return if OwnCapBinds(caps, draft.name, remaining) then Skip else Stop, []; }
    FitIsOptimal(draft.items, CapFor(caps, draft.name, remaining));
    var provenance := CollectProvenance(draft.items[..fitted.value], fitted.value < |draft.items|);
    var content := Content(draft.items, fitted.value);
    return Keep(fitted.value), [Section(draft.name, content, EstimateTokens(content), draft.priority, provenance)];
  }

  method AssembleSections(drafts: seq<SectionDraft>, totalTokens: nat, caps: Caps) returns (sections: seq<Section>)
    ensures sections == FitToBudget(drafts, totalTokens, caps)
  {
    sections := [];
    var remaining := totalTokens;
    for i := 0 to |drafts|
      invariant remaining >= 0
      invariant sections + FitToBudget(drafts[i..], remaining, caps) == FitToBudget(drafts, totalTokens, caps)
    {
      var r, admitted := AdmitDraft(drafts[i], caps, remaining);
      BriefUnfoldsAt(drafts, i, remaining, caps, r, admitted, sections);
      AdmissionCases(drafts[i], remaining, r);
      if r.Stop? { return; }
      sections := sections + admitted;
      if r.Keep? { remaining := remaining - Cost(drafts[i], r.kept); }
    }
    assert drafts[|drafts|..] == [];
  }

  lemma BriefUnfoldsAt(drafts: seq<SectionDraft>, i: nat, remaining: nat, caps: Caps, a: Admission,
                       admitted: seq<Section>, soFar: seq<Section>)
    requires i < |drafts| && a == Admit(drafts[i], caps, remaining) && admitted == Admitted(drafts[i], a)
    ensures
      var next := NextOf(drafts[i], remaining, a);
      soFar + FitToBudget(drafts[i..], remaining, caps) ==
      soFar + admitted + (if next.Some? then FitToBudget(drafts[i + 1..], next.value, caps) else [])
  {
    var next := NextOf(drafts[i], remaining, a);
    assert drafts[i..][0] == drafts[i] && drafts[i..][1..] == drafts[i + 1..];
    BriefUnfolds(drafts[i..], remaining, caps, a, next);
    Regrouped(soFar, admitted, if next.Some? then FitToBudget(drafts[i + 1..], next.value, caps) else []);
  }

  lemma Regrouped(a: seq<Section>, b: seq<Section>, c: seq<Section>)
    ensures a + (b + c) == a + b + c
  {}

  function Used(sections: seq<Section>): nat {
    if sections == [] then 0 else sections[0].tokens + Used(sections[1..])
  }

  predicate Charged(s: Section, caps: Caps) {
    s.tokens == EstimateTokens(s.content) && (HasCap(caps, s.name) ==> s.tokens <= caps[s.name])
  }

  lemma {:induction false} UsedConcat(a: seq<Section>, b: seq<Section>)
    ensures Used(a + b) == Used(a) + Used(b)
  {
    if a == [] {
      assert [] + b == b;
    } else {
      UsedConcat(a[1..], b);
      assert (a + b)[1..] == a[1..] + b;
    }
  }

  /** A brief is one admission's section followed by the brief of what remains. */
  lemma BriefSplits(drafts: seq<SectionDraft>, total: nat, caps: Caps)
    returns (admitted: seq<Section>, next: Option<nat>)
    requires drafts != []
    ensures FitToBudget(drafts, total, caps) ==
      admitted + (if next.Some? then FitToBudget(drafts[1..], next.value, caps) else [])
    ensures Used(admitted) + (if next.Some? then next.value else 0) <= total
    ensures forall s :: s in admitted ==> Charged(s, caps)
  {
    var a := Admit(drafts[0], caps, total);
    admitted, next := Admitted(drafts[0], a), NextOf(drafts[0], total, a);
    BriefUnfolds(drafts, total, caps, a, next);
    if a.Keep? {
      UsedConcat([MakeSection(drafts[0], a.kept)], []);
    }
  }

  /** The brief never uses more than allotted, and every section is charged its own text and kept within its cap. */
  lemma {:induction false} BudgetIsHard(drafts: seq<SectionDraft>, total: nat, caps: Caps)
    ensures Used(FitToBudget(drafts, total, caps)) <= total
    ensures forall s :: s in FitToBudget(drafts, total, caps) ==> Charged(s, caps)
    decreases |drafts|
  {
    if drafts != [] {
      var admitted, next := BriefSplits(drafts, total, caps);
      if next.Some? { BudgetIsHard(drafts[1..], next.value, caps); }
      UsedConcat(admitted, if next.Some? then FitToBudget(drafts[1..], next.value, caps) else []);
    }
  }

  // ----- kept counts and the total budget -----

  function Zeros(n: nat): seq<nat> { seq(n, _ => 0) }

  predicate LexLeq(a: seq<nat>, b: seq<nat>)
    requires |a| == |b|
  {
    a == [] || a[0] < b[0] || (a[0] == b[0] && LexLeq(a[1..], b[1..]))
  }

  lemma {:induction false} ZerosAreLeast(b: seq<nat>)
    ensures LexLeq(Zeros(|b|), b)
  {
    if b != [] {
      ZerosAreLeast(b[1..]);
      assert Zeros(|b|)[1..] == Zeros(|b| - 1);
    }
  }

  /** One admission as a number kept and what remains for the next draft, if anything is admitted any more. */
  type AdmissionStep = (SectionDraft, nat) -> (nat, Option<nat>)

  /** Kept counts under any admission step. */
  function KeptBy(step: AdmissionStep, drafts: seq<SectionDraft>, remaining: nat): (r: seq<nat>)
    ensures |r| == |drafts|
  {
    if drafts == [] then []
    else
      var (kept, next) := step(drafts[0], remaining);
      [kept] + if next.Some? then KeptBy(step, drafts[1..], next.value) else Zeros(|drafts| - 1)
  }

  /** With more remaining, a step keeps more, or keeps the same and leaves at least as much. */
  predicate StepGrows(step: AdmissionStep, d: SectionDraft, small: nat, large: nat) {
    var (k, next) := step(d, small);
    var (k', next') := step(d, large);
    k < k' || (k == k' && (next.Some? ==> next'.Some? && next.value <= next'.value))
  }

  lemma {:induction false} KeptByGrows(step: AdmissionStep, drafts: seq<SectionDraft>, small: nat, large: nat)
    requires small <= large
    requires forall d, a, b :: a <= b ==> StepGrows(step, d, a, b)
    ensures LexLeq(KeptBy(step, drafts, small), KeptBy(step, drafts, large))
  {
    if drafts != [] {
      assert StepGrows(step, drafts[0], small, large);
      var (k, next) := step(drafts[0], small);
      var (k', next') := step(drafts[0], large);
      ZerosAreLeast(KeptBy(step, drafts, large)[1..]);
      assert KeptBy(step, drafts, small)[1..] ==
        if next.Some? then KeptBy(step, drafts[1..], next.value) else Zeros(|drafts| - 1);
      assert KeptBy(step, drafts, large)[1..] ==
        if next'.Some? then KeptBy(step, drafts[1..], next'.value) else Zeros(|drafts| - 1);
      if k == k' && next.Some? { KeptByGrows(step, drafts[1..], next.value, next'.value); }
    }
  }

  function StepOf(draft: SectionDraft, remaining: nat, caps: Caps): (nat, Option<nat>) {
    match Admit(draft, caps, remaining)
    case Stop => (0, None)
    case Skip => (0, Some(remaining))
    case Keep(kept) => (kept, Some(remaining - Cost(draft, kept)))
  }

  function Stepper(caps: Caps): AdmissionStep {
    (d, r) => StepOf(d, r, caps)
  }

  /** How many items of each draft are kept, zero for an excluded one. */
  function KeptCounts(drafts: seq<SectionDraft>, remaining: nat, caps: Caps): (r: seq<nat>)
    ensures |r| == |drafts|
  {
    KeptBy(Stepper(caps), drafts, remaining)
  }

  lemma StepperGrows(draft: SectionDraft, caps: Caps, small: nat, large: nat)
    requires small <= large
    ensures StepGrows(Stepper(caps), draft, small, large)
  {
    AdmitIsMonotone(draft, caps, small, large);
  }

  /**
   * A larger total never gives a lexicographically smaller vector of kept counts: the first section that differs is
   * better off, whatever happens to the later ones.
   */
  lemma LargerTotalKeepsMore(drafts: seq<SectionDraft>, small: nat, large: nat, caps: Caps)
    requires small <= large
    ensures LexLeq(KeptCounts(drafts, small, caps), KeptCounts(drafts, large, caps))
  {
    forall d, a: nat, b: nat | a <= b { StepperGrows(d, caps, a, b); }
    KeptByGrows(Stepper(caps), drafts, small, large);
  }

  /** The sections that a vector of kept counts stands for. */
  function SectionsOf(drafts: seq<SectionDraft>, counts: seq<nat>): seq<Section>
    requires |counts| == |drafts|
  {
    if drafts == [] then []
    else
      (if 0 < counts[0] <= |drafts[0].items| then [MakeSection(drafts[0], counts[0])] else []) +
      SectionsOf(drafts[1..], counts[1..])
  }

  lemma {:induction false} NoSections(drafts: seq<SectionDraft>)
    ensures SectionsOf(drafts, Zeros(|drafts|)) == []
  {
    if drafts != [] {
      NoSections(drafts[1..]);
      assert Zeros(|drafts|)[1..] == Zeros(|drafts| - 1);
    }
  }

  lemma KeptCountsStep(drafts: seq<SectionDraft>, total: nat, caps: Caps)
    requires drafts != []
    ensures
      var (kept, next) := StepOf(drafts[0], total, caps);
      && KeptCounts(drafts, total, caps)[0] == kept
      && KeptCounts(drafts, total, caps)[1..] ==
        if next.Some? then KeptCounts(drafts[1..], next.value, caps) else Zeros(|drafts| - 1)
  {}

  /** On non-empty drafts the brief is exactly the sections its kept counts stand for. */
  lemma {:induction false} BriefIsItsCounts(drafts: seq<SectionDraft>, total: nat, caps: Caps)
    requires forall i :: 0 <= i < |drafts| ==> drafts[i].items != []
    ensures FitToBudget(drafts, total, caps) == SectionsOf(drafts, KeptCounts(drafts, total, caps))
  {
    if drafts != [] {
      var (kept, next) := StepOf(drafts[0], total, caps);
      var a := Admit(drafts[0], caps, total);
      BriefUnfolds(drafts, total, caps, a, next);
      KeptCountsStep(drafts, total, caps);
      NoSections(drafts[1..]);
      if next.Some? { BriefIsItsCounts(drafts[1..], next.value, caps); }
      KeepsSomething(drafts[0], caps, total);
      CountsToSections(drafts, KeptCounts(drafts, total, caps), kept, a);
    }
  }

  lemma CountsToSections(drafts: seq<SectionDraft>, counts: seq<nat>, kept: nat, a: Admission)
    requires drafts != [] && |counts| == |drafts| && counts[0] == kept
    requires if a.Keep? then a.kept == kept && 0 < kept <= |drafts[0].items| else kept == 0
    ensures SectionsOf(drafts, counts) == Admitted(drafts[0], a) + SectionsOf(drafts[1..], counts[1..])
  {}

  lemma KeepsSomething(draft: SectionDraft, caps: Caps, remaining: nat)
    requires draft.items != []
    ensures Admit(draft, caps, remaining).Keep? ==> Admit(draft, caps, remaining).kept > 0
  {
    FitIsOptimal(draft.items, CapFor(caps, draft.name, remaining));
  }

  /** What remains when draft `i` is reached; None once the total was exhausted before it. */
  function RemainingBy(step: AdmissionStep, drafts: seq<SectionDraft>, remaining: nat, i: nat): Option<nat>
    requires i <= |drafts|
  {
    if i == 0 then Some(remaining)
    else match step(drafts[0], remaining).1
      case None => None
      case Some(next) => RemainingBy(step, drafts[1..], next, i - 1)
  }

  function RemainingAt(drafts: seq<SectionDraft>, total: nat, caps: Caps, i: nat): Option<nat>
    requires i <= |drafts|
  {
    RemainingBy(Stepper(caps), drafts, total, i)
  }

  lemma {:induction false} KeptAt(step: AdmissionStep, drafts: seq<SectionDraft>, remaining: nat, i: nat)
    requires i < |drafts|
    ensures
      var r := RemainingBy(step, drafts, remaining, i);
      KeptBy(step, drafts, remaining)[i] == if r.Some? then step(drafts[i], r.value).0 else 0
  {
    if i > 0 && step(drafts[0], remaining).1.Some? {
      KeptAt(step, drafts[1..], step(drafts[0], remaining).1.value, i - 1);
    }
  }

  /** Once a step leaves nothing, nothing later is kept. */
  lemma {:induction false} NothingAfterStop(step: AdmissionStep, drafts: seq<SectionDraft>, remaining: nat, i: nat,
                                            j: nat)
    requires i < j < |drafts|
    requires var r := RemainingBy(step, drafts, remaining, i); r.Some? ==> step(drafts[i], r.value).1.None?
    ensures KeptBy(step, drafts, remaining)[j] == 0
  {
    if i > 0 && step(drafts[0], remaining).1.Some? {
      NothingAfterStop(step, drafts[1..], step(drafts[0], remaining).1.value, i - 1, j - 1);
    }
  }

  lemma StopsUnlessCapped(draft: SectionDraft, caps: Caps, remaining: nat)
    requires draft.items != [] && StepOf(draft, remaining, caps).0 == 0 && !OwnCapBinds(caps, draft.name, remaining)
    ensures StepOf(draft, remaining, caps).1.None?
  {
    FitIsOptimal(draft.items, CapFor(caps, draft.name, remaining));
  }

  /**
   * Sections dropped for the total form a suffix: when a non-empty draft is excluded and its own cap was not what
   * excluded it, every later draft is excluded too.
   */
  lemma DropsFormASuffix(drafts: seq<SectionDraft>, total: nat, caps: Caps, i: nat, j: nat)
    requires i < j < |drafts| && drafts[i].items != []
    requires KeptCounts(drafts, total, caps)[i] == 0
    requires RemainingAt(drafts, total, caps, i).Some? ==>
      !OwnCapBinds(caps, drafts[i].name, RemainingAt(drafts, total, caps, i).value)
    ensures KeptCounts(drafts, total, caps)[j] == 0
  {
    var step, r := Stepper(caps), RemainingAt(drafts, total, caps, i);
    KeptAt(step, drafts, total, i);
    if r.Some? { StopsUnlessCapped(drafts[i], caps, r.value); }
    NothingAfterStop(step, drafts, total, i, j);
  }

  function Block(c: char, n: nat): string { seq(n, _ => c) }

  lemma TwoCounts(first: SectionDraft, second: SectionDraft, total: nat, caps: Caps, kept: nat, left: nat)
    requires StepOf(first, total, caps) == (kept, Some(left))
    ensures KeptCounts([first, second], total, caps) == [kept, StepOf(second, left, caps).0]
  {
    assert [first, second][1..] == [second] && [second][1..] == [];
    assert KeptCounts([second], left, caps) == [StepOf(second, left, caps).0];
  }

  lemma FirstSectionFits(items: seq<Item>)
    requires |items| == 2 && |items[0].text| == 4 && |items[1].text| == 40
    ensures FitItems(items, 10) == Some(1) && FitItems(items, 12) == Some(2)
    ensures |Truncated(items, 1)| == 35 && |Render(items)| == 45
  {
    var last := [items[1].text];
    assert Texts(items) == [items[0].text, items[1].text] && Texts(items)[1..] == last;
    assert Join(last, "\n") == last[0] && |Render(items)| == 45;
    assert Texts(items[..1]) == [items[0].text] && |Render(items[..1])| == 4;
    NoticeLength(1, 2);
    assert |Truncated(items, 1)| == 35;
  }

  lemma SecondSectionFits(items: seq<Item>)
    requires |items| == 1 && |items[0].text| == 4
    ensures FitItems(items, 1) == Some(1) && FitItems(items, 0) == None && |Render(items)| == 4
  {
    assert Texts(items) == [items[0].text];
  }

  lemma FirstSectionSteps(draft: SectionDraft)
    requires |draft.items| == 2 && |draft.items[0].text| == 4 && |draft.items[1].text| == 40
    ensures StepOf(draft, 10, map[]) == (1, Some(1)) && StepOf(draft, 12, map[]) == (2, Some(0))
  {
    FirstSectionFits(draft.items);
    assert Admit(draft, map[], 10) == Keep(1) && Admit(draft, map[], 12) == Keep(2);
  }

  lemma SecondSectionSteps(draft: SectionDraft)
    requires |draft.items| == 1 && |draft.items[0].text| == 4
    ensures StepOf(draft, 1, map[]).0 == 1 && StepOf(draft, 0, map[]).0 == 0
  {
    SecondSectionFits(draft.items);
    assert Admit(draft, map[], 1) == Keep(1) && Admit(draft, map[], 0) == Stop;
  }

  /** The order is lexicographic only: here a larger total costs the second section its item. */
  lemma LaterSectionMayShrink()
    ensures
      var drafts := [
        SectionDraft(TaskSection, 1, [Item(Block('a', 4), "t"), Item(Block('a', 40), "t")]),
        SectionDraft(Claims, 2, [Item(Block('b', 4), "c")])];
      KeptCounts(drafts, 10, map[]) == [1, 1] && KeptCounts(drafts, 12, map[]) == [2, 0]
  {
    var first := SectionDraft(TaskSection, 1, [Item(Block('a', 4), "t"), Item(Block('a', 40), "t")]);
    var second := SectionDraft(Claims, 2, [Item(Block('b', 4), "c")]);
    FirstSectionSteps(first);
    SecondSectionSteps(second);
    TwoCounts(first, second, 10, map[], 1, 1);
    TwoCounts(first, second, 12, map[], 2, 0);
  }
}
