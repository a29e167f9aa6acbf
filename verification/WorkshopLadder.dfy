/** The workshop authority ladder: per-tool records, the append-only history, and what the history says about them. */
module WorkshopLadder {
  import opened Prelude
  import opened Text

  datatype WorkshopTier = Suggest | Advisory | Enforce

  datatype Status = Live | RemovalProposed

  datatype Tool = Tool(
    name: string,
    tier: WorkshopTier,
    cleanRuns: nat,
    lastUsedAt: int,
    born: int,
    status: Status,
    decayedAt: Option<int>)

  type Tools = map<string, Tool>

  /** A promotion without a ratifier is the automatic one. */
  datatype Event =
    | Born(at: int, tool: string)
    | Ran(at: int, tool: string, clean: bool)
    | Promoted(at: int, tool: string, from: WorkshopTier, to: WorkshopTier, ratifiedBy: Option<string>)
    | Decayed(at: int, tool: string, from: WorkshopTier, to: WorkshopTier)
    | Proposed(at: int, tool: string)
    | Retired(at: int, tool: string, retiredBy: string)

  const N_CLEAN_RUNS_FOR_ADVISORY := 5
  const DECAY_WINDOW_MS := 30 * 24 * 60 * 60 * 1000

  // ----- the transitions on one tool -----

  function Newborn(name: string, at: int): Tool {
    Tool(name, Suggest, 0, at, at, Live, None)
  }

  function AfterRun(tool: Tool, clean: bool, at: int): Tool {
    tool.(cleanRuns := if clean then tool.cleanRuns + 1 else 0, lastUsedAt := at)
  }

  predicate Earned(tool: Tool) {
    tool.tier == Suggest && tool.cleanRuns >= N_CLEAN_RUNS_FOR_ADVISORY
  }

  /** The later of the last run and the last decay. */
  function Anchor(tool: Tool): int {
    var decayed := if tool.decayedAt.Some? then tool.decayedAt.value else 0;
    if tool.lastUsedAt >= decayed then tool.lastUsedAt else decayed
  }

  function RungBelow(tier: WorkshopTier): WorkshopTier {
    if tier == Enforce then Advisory else Suggest
  }

  /** The record after a sweep at `now`, and the event it appends, if any. */
  function DecayOne(tool: Tool, now: int): (Tool, Option<Event>) {
    if now - Anchor(tool) <= DECAY_WINDOW_MS then (tool, None)
    else if tool.tier == Suggest then
      if tool.status == RemovalProposed then (tool, None)
      else (tool.(status := RemovalProposed, decayedAt := Some(now)), Some(Proposed(now, tool.name)))
    else
      (tool.(tier := RungBelow(tool.tier), decayedAt := Some(now), cleanRuns := 0),
       Some(Decayed(now, tool.name, tool.tier, RungBelow(tool.tier))))
  }

  /** A sweep costs a tool at most one rung, and a second sweep at the same instant costs nothing. */
  lemma SweepIsGentle(tool: Tool, now: int)
    ensures DecayOne(tool, now).0.tier == tool.tier || DecayOne(tool, now).0.tier == RungBelow(tool.tier)
    ensures DecayOne(DecayOne(tool, now).0, now) == (DecayOne(tool, now).0, None)
    ensures DecayOne(tool, now).1.None? <==> DecayOne(tool, now).0 == tool
  {}

  // ----- replaying the history -----

  function Apply(tools: Tools, e: Event): Tools {
    match e
    case Born(at, name) => tools[name := Newborn(name, at)]
    case Retired(_, name, _) => tools - {name}
    case _ => if e.tool in tools then tools[e.tool := ApplyTo(tools[e.tool], e)] else tools
  }

  function ApplyTo(tool: Tool, e: Event): Tool {
    match e
    case Ran(at, _, clean) => AfterRun(tool, clean, at)
    case Promoted(_, _, _, to, _) => tool.(tier := to)
    case Decayed(at, _, _, to) => tool.(tier := to, decayedAt := Some(at), cleanRuns := 0)
    case Proposed(at, _) => tool.(status := RemovalProposed, decayedAt := Some(at))
    case _ => tool
  }

  function Replay(history: seq<Event>): Tools {
    if history == [] then map[] else Apply(Replay(history[..|history| - 1]), history[|history| - 1])
  }

  lemma ReplaySnoc(history: seq<Event>, e: Event)
    ensures Replay(history + [e]) == Apply(Replay(history), e)
  {}

  // ----- legal histories -----

  /** No tool is owed its automatic promotion. */
  predicate Settled(tools: Tools) {
    forall name :: name in tools ==> !Earned(tools[name])
  }

  /** The one event that settles a tool: exactly five clean runs in, from suggest to advisory, with no ratifier. */
  predicate Settles(tools: Tools, e: Event) {
    && e.Promoted? && e.ratifiedBy.None? && e.from == Suggest && e.to == Advisory
    && e.tool in tools && tools[e.tool].tier == Suggest && tools[e.tool].cleanRuns == N_CLEAN_RUNS_FOR_ADVISORY
    && forall name :: name in tools && name != e.tool ==> !Earned(tools[name])
  }

  /** An event may follow a state: the promotion that is owed, or, when none is, any guarded transition. */
  predicate EventOk(tools: Tools, e: Event) {
    Settles(tools, e) || (Settled(tools) && GuardedEvent(tools, e))
  }

  predicate GuardedEvent(tools: Tools, e: Event) {
    match e
    case Born(_, _) => true
    case Ran(_, name, _) => name in tools
    case Promoted(_, name, from, to, who) =>
      name in tools && tools[name].tier == Advisory && from == Advisory && to == Enforce && who.Some?
        && Trim(who.value) != ""
    case Decayed(at, name, from, to) =>
      name in tools && tools[name].tier == from && from != Suggest && to == RungBelow(from)
        && at - Anchor(tools[name]) > DECAY_WINDOW_MS
    case Proposed(at, name) =>
      name in tools && tools[name].tier == Suggest && tools[name].status == Live
        && at - Anchor(tools[name]) > DECAY_WINDOW_MS
    case Retired(_, name, who) => name in tools && Trim(who) != ""
  }

  predicate Legal(history: seq<Event>) {
    history == [] || (Legal(history[..|history| - 1])
                      && EventOk(Replay(history[..|history| - 1]), history[|history| - 1]))
  }

  lemma LegalSnoc(history: seq<Event>, e: Event)
    ensures Legal(history + [e]) <==> Legal(history) && EventOk(Replay(history), e)
  {}

  /** Legal histories name their tools truthfully. */
  lemma {:induction false} NamesAreKeys(history: seq<Event>, name: string)
    requires name in Replay(history)
    ensures Replay(history)[name].name == name
  {
    var init, e := history[..|history| - 1], history[|history| - 1];
    if name in Replay(init) { NamesAreKeys(init, name); }
  }

  // ----- clean runs -----

  /** Clean runs since the tool's last unclean run, decay or birth. */
  function CleanTail(history: seq<Event>, name: string): nat {
    if history == [] then 0
    else
      var rest := CleanTail(history[..|history| - 1], name);
      var e := history[|history| - 1];
      if e.tool != name then rest
      else match e
        case Ran(_, _, clean) => if clean then rest + 1 else 0
        case Promoted(_, _, _, _, _) => rest
        case Proposed(_, _) => rest
        case _ => 0
  }

  /** The stored streak is the streak of the history. */
  lemma {:induction false} CleanRunsAreTheStreak(history: seq<Event>, name: string)
    requires Legal(history) && name in Replay(history)
    ensures Replay(history)[name].cleanRuns == CleanTail(history, name)
  {
    var init, e := history[..|history| - 1], history[|history| - 1];
    if name in Replay(init) { CleanRunsAreTheStreak(init, name); }
  }

  // ----- where a tier comes from -----

  predicate ChangesTier(e: Event, name: string) {
    e.tool == name && (e.Born? || e.Promoted? || e.Decayed?)
  }

  /** Index of the tool's last birth, promotion or demotion. */
  function LastTierChange(history: seq<Event>, name: string): (i: Option<nat>)
    ensures i.Some? ==> i.value < |history| && ChangesTier(history[i.value], name)
    ensures i.Some? ==> forall j :: i.value < j < |history| ==> !ChangesTier(history[j], name)
  {
    if history == [] then None
    else if ChangesTier(history[|history| - 1], name) then Some(|history| - 1)
    else LastTierChange(history[..|history| - 1], name)
  }

  /** The provenance a tier requires of the tool's last tier change, at index `i`. */
  predicate TierEarned(history: seq<Event>, i: nat, name: string, tier: WorkshopTier)
    requires i < |history|
  {
    match tier
    case Suggest => history[i].Born? || (history[i].Decayed? && history[i].from == Advisory)
    case Advisory =>
      || (history[i].Promoted? && history[i].ratifiedBy.None?
          && CleanTail(history[..i], name) == N_CLEAN_RUNS_FOR_ADVISORY)
      || (history[i].Decayed? && history[i].from == Enforce)
    case Enforce => history[i].Promoted? && history[i].ratifiedBy.Some? && Trim(history[i].ratifiedBy.value) != ""
  }

  lemma LastTierChangeSnoc(init: seq<Event>, e: Event, name: string)
    ensures LastTierChange(init + [e], name) ==
      if ChangesTier(e, name) then Some(|init|) else LastTierChange(init, name)
  {
    var history := init + [e];
    assert history[..|history| - 1] == init && history[|history| - 1] == e;
  }

  lemma TierEarnedExtends(init: seq<Event>, e: Event, i: nat, name: string, tier: WorkshopTier)
    requires i < |init|
    ensures TierEarned(init + [e], i, name, tier) == TierEarned(init, i, name, tier)
  {
    assert (init + [e])[..i] == init[..i];
  }

  /**
   * Tier provenance over whole histories: a suggest tool was born or decayed from advisory; an advisory tool was
   * promoted on exactly five consecutive clean runs or decayed from enforce; an enforce tool was last promoted by a
   * human with a non-blank name.
   */
  lemma {:induction false} TiersAreEarned(history: seq<Event>, name: string)
    requires Legal(history) && name in Replay(history)
    ensures LastTierChange(history, name).Some?
    ensures TierEarned(history, LastTierChange(history, name).value, name, Replay(history)[name].tier)
  {
    var init, e := history[..|history| - 1], history[|history| - 1];
    assert history == init + [e];
    LastTierChangeSnoc(init, e, name);
    if name in Replay(init) {
      TiersAreEarned(init, name);
      CleanRunsAreTheStreak(init, name);
      TierEarnedExtends(init, e, LastTierChange(init, name).value, name, Replay(init)[name].tier);
      TierStep(init, e, name);
    }
  }

  lemma TierStep(init: seq<Event>, e: Event, name: string)
    requires EventOk(Replay(init), e) && name in Replay(init) && name in Apply(Replay(init), e)
    requires Replay(init)[name].cleanRuns == CleanTail(init, name)
    ensures !ChangesTier(e, name) ==> Apply(Replay(init), e)[name].tier == Replay(init)[name].tier
    ensures ChangesTier(e, name) ==> TierEarned(init + [e], |init|, name, Apply(Replay(init), e)[name].tier)
  {}

  // ----- decay spacing -----

  predicate DecaysTool(e: Event, name: string) {
    e.tool == name && (e.Decayed? || e.Proposed?)
  }

  /** A life of the tool ends: a birth under its name starts another, a retirement none. */
  predicate EndsLife(e: Event, name: string) {
    e.tool == name && (e.Born? || e.Retired?)
  }

  /** Index from which the tool's present life runs. */
  function LifeStart(history: seq<Event>, name: string): (i: nat)
    ensures i <= |history|
  {
    if history == [] then 0
    else if EndsLife(history[|history| - 1], name) then |history|
    else LifeStart(history[..|history| - 1], name)
  }

  /** In a tool's present life, `decayedAt` is the latest decay, and decays are more than a window apart. */
  predicate Spaced(history: seq<Event>, name: string) {
    && (forall i :: LifeStart(history, name) <= i < |history| && DecaysTool(history[i], name) ==>
          && name in Replay(history) && Replay(history)[name].decayedAt.Some?
          && history[i].at <= Replay(history)[name].decayedAt.value)
    && (forall i, j ::
          (LifeStart(history, name) <= i < j < |history|
           && DecaysTool(history[i], name) && DecaysTool(history[j], name)) ==>
            history[j].at - history[i].at > DECAY_WINDOW_MS)
  }

  lemma DecayMovesOn(tools: Tools, e: Event, name: string)
    requires EventOk(tools, e) && DecaysTool(e, name)
    ensures name in tools && e.at - Anchor(tools[name]) > DECAY_WINDOW_MS && e.at > Anchor(tools[name])
    ensures name in Apply(tools, e) && Apply(tools, e)[name].decayedAt == Some(e.at)
    ensures tools[name].decayedAt.Some? ==> tools[name].decayedAt.value <= Anchor(tools[name])
  {}

  /**
   * Successive decay or removal events in one life of a tool are more than the thirty-day window apart, on any clock.
   */
  lemma {:induction false} DecaysAreSpaced(history: seq<Event>, name: string)
    requires Legal(history)
    ensures Spaced(history, name)
  {
    if history != [] {
      var init, e := history[..|history| - 1], history[|history| - 1];
      assert history == init + [e];
      DecaysAreSpaced(init, name);
      if DecaysTool(e, name) { DecayMovesOn(Replay(init), e, name); }
      SpacedStep(init, e, name);
    }
  }

  lemma DecayedAtAfter(tools: Tools, e: Event, name: string)
    requires name in tools && !EndsLife(e, name)
    ensures name in Apply(tools, e)
    ensures Apply(tools, e)[name].decayedAt == if DecaysTool(e, name) then Some(e.at) else tools[name].decayedAt
  {}

  lemma LifeGoesOn(init: seq<Event>, e: Event, name: string)
    ensures LifeStart(init + [e], name) == if EndsLife(e, name) then |init| + 1 else LifeStart(init, name)
  {
    assert (init + [e])[..|init|] == init;
  }

  lemma SpacedStep(init: seq<Event>, e: Event, name: string)
    requires Spaced(init, name)
    requires DecaysTool(e, name) ==> name in Replay(init) && e.at - Anchor(Replay(init)[name]) > DECAY_WINDOW_MS
    ensures Spaced(init + [e], name)
  {
    var history := init + [e];
    ReplaySnoc(init, e);
    LifeGoesOn(init, e, name);
    if !EndsLife(e, name) {
      assert forall i :: 0 <= i < |init| ==> history[i] == init[i];
      if name in Replay(init) { DecayedAtAfter(Replay(init), e, name); }
    }
  }

  // ----- idling down from enforce -----

  function Height(tier: WorkshopTier): nat {
    match tier case Suggest => 0 case Advisory => 1 case Enforce => 2
  }

  /** Nothing but decay happens to the tool. */
  predicate OnlyDecays(events: seq<Event>, name: string) {
    forall i :: 0 <= i < |events| && events[i].tool == name ==> events[i].Decayed? || events[i].Proposed?
  }

  /** How many decay steps separate two records of one tool. */
  function StepsDown(from: Tool, to: Tool): int {
    Height(from.tier) - Height(to.tier) + (if from.status == Live && to.status == RemovalProposed then 1 else 0)
  }

  /** Each step down an idle tool has taken cost it more than one further window. */
  predicate IdledTo(from: Tool, to: Tool) {
    var steps := StepsDown(from, to);
    && to.lastUsedAt == from.lastUsedAt && Height(to.tier) <= Height(from.tier)
    && (from.status == RemovalProposed ==> to.status == RemovalProposed)
    && (from.status == Live && to.status == RemovalProposed ==> to.tier == Suggest)
    && (steps == 0 ==> to == from)
    && (steps > 0 ==> to.decayedAt.Some? && to.decayedAt.value > Anchor(from) + steps * DECAY_WINDOW_MS)
  }

  lemma {:induction false} IdleDecay(history: seq<Event>, idle: seq<Event>, name: string)
    requires Legal(history + idle) && OnlyDecays(idle, name) && name in Replay(history)
    ensures name in Replay(history + idle)
    ensures IdledTo(Replay(history)[name], Replay(history + idle)[name])
  {
    if idle == [] {
      assert history + idle == history;
    } else {
      var init, e := idle[..|idle| - 1], idle[|idle| - 1];
      assert history + idle == history + init + [e];
      LegalSnoc(history + init, e);
      ReplaySnoc(history + init, e);
      IdleDecay(history, init, name);
      IdleStep(Replay(history)[name], Replay(history + init), e, name);
    }
  }

  lemma IdleStep(from: Tool, tools: Tools, e: Event, name: string)
    requires EventOk(tools, e) && name in tools && (e.tool == name ==> e.Decayed? || e.Proposed?)
    requires IdledTo(from, tools[name])
    ensures name in Apply(tools, e) && IdledTo(from, Apply(tools, e)[name])
  {}

  /** An idle live enforce tool is proposed for removal only more than three windows after its last use. */
  lemma IdleEnforceToolLastsThreeWindows(history: seq<Event>, idle: seq<Event>, name: string)
    requires Legal(history + idle) && OnlyDecays(idle, name) && name in Replay(history)
    requires Replay(history)[name].tier == Enforce && Replay(history)[name].status == Live
    ensures name in Replay(history + idle)
    ensures Replay(history + idle)[name].status == RemovalProposed ==>
      Replay(history + idle)[name].decayedAt.Some?
      && Replay(history + idle)[name].decayedAt.value > Replay(history)[name].lastUsedAt + 3 * DECAY_WINDOW_MS
  {
    IdleDecay(history, idle, name);
  }

  // ----- removal proposals -----

  /** The tool was proposed for removal since it was born. */
  function ProposedInLife(history: seq<Event>, name: string): bool {
    if history == [] then false
    else
      var e := history[|history| - 1];
      if e.tool == name && (e.Born? || e.Retired?) then false
      else (e.tool == name && e.Proposed?) || ProposedInLife(history[..|history| - 1], name)
  }

  /** A removal proposal stays for the rest of the tool's life: no later run, clean or not, withdraws it. */
  lemma {:induction false} ProposalsStay(history: seq<Event>, name: string)
    requires Legal(history) && name in Replay(history)
    ensures Replay(history)[name].status == RemovalProposed <==> ProposedInLife(history, name)
  {
    var init, e := history[..|history| - 1], history[|history| - 1];
    if name in Replay(init) { ProposalsStay(init, name); }
  }
}
