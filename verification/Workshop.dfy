/**
 * The workshop as it runs: the lifecycle file and the tool directories, changed by forge, run, promote, sweep, retire.
 */
module Workshop {
  import opened Prelude
  import opened Text
  import opened WorkshopLadder
  import opened Json
  import opened CanonicalJson

  datatype WorkshopError =
    | BirthRefused
    | ProfileMismatch
    | AtCapacity
    | TestFailed
    | BadName
    | UnknownTool
    | RatificationRequired
    | LadderOrder(tier: WorkshopTier)

  /** What forge is given, as far as its checks look at it. */
  datatype BirthSpec = BirthSpec(
    schemaOk: bool,
    isWorkshopTool: bool,
    bornAtSuggest: bool,
    manifestName: string,
    hasGenerator: bool)

  const NAME_PREFIX := "workshop/"

  predicate IsNameChar(c: char) { 'a' <= c <= 'z' || '0' <= c <= '9' }

  /** Lower-case alphanumerics and hyphens, not starting with a hyphen. */
  predicate SafeToolName(name: string) {
    name != "" && IsNameChar(name[0]) && forall i :: 0 <= i < |name| ==> IsNameChar(name[i]) || name[i] == '-'
  }

  predicate ValidBirth(spec: BirthSpec) {
    && spec.schemaOk && spec.isWorkshopTool && spec.bornAtSuggest && spec.hasGenerator
    && NAME_PREFIX <= spec.manifestName && SafeToolName(spec.manifestName[|NAME_PREFIX|..])
  }

  /** Lower-case letters, digits and hyphens, the first no hyphen. */
  predicate ToolNameText(name: string) {
    && name != "" && name[0] != '-'
    && forall i :: 0 <= i < |name| ==> 'a' <= name[i] <= 'z' || '0' <= name[i] <= '9' || name[i] == '-'
  }

  /** A sound birth: its schema, a workshop tool at suggest, a generator, and a name under `workshop/`. */
  predicate BirthText(spec: BirthSpec) {
    && spec.schemaOk && spec.isWorkshopTool && spec.bornAtSuggest && spec.hasGenerator
    && "workshop/" <= spec.manifestName && ToolNameText(spec.manifestName[9..])
  }

  lemma NameInWords(name: string)
    ensures SafeToolName(name) <==> ToolNameText(name)
  {}

  lemma BirthInWords(spec: BirthSpec)
    ensures ValidBirth(spec) <==> BirthText(spec)
  {
    if "workshop/" <= spec.manifestName { NameInWords(spec.manifestName[9..]); }
  }

  const CAP_KEY := "liveToolCapPerOverlay"

  /** How many live tools a profile allows. */
  function CapOf(profile: Json): nat {
    var n := IntMember(profile, CAP_KEY);
    if n.Some? && n.value > 0 then n.value else 0
  }

  /** The gate passes exactly the profiles that are the ratified one as data, and those carry its cap. */
  lemma GateFixesCap(profile: Json, ratified: Json)
    requires WellFormed(profile) && WellFormed(ratified)
    ensures Canonical(profile) == Canonical(ratified) <==> SameData(profile, ratified)
    ensures SameData(profile, ratified) ==> CapOf(profile) == CapOf(ratified)
  {
    CanonicalIsExact(profile, ratified);
    if SameData(profile, ratified) { SameIntMember(profile, ratified, CAP_KEY); }
  }

  /** The cap of a profile is the positive integer under its key; a profile without one allows no tool. */
  lemma CapIsTheMember(fields: seq<Field>, n: int)
    requires DistinctKeys(fields)
    ensures Field("liveToolCapPerOverlay", Some(JInt(n))) in fields && n > 0 ==> CapOf(JObject(fields)) == n
    ensures CapOf(JObject(fields)) > 0 ==>
      Field("liveToolCapPerOverlay", Some(JInt(CapOf(JObject(fields))))) in fields
  {
    IntIsMember(fields, CAP_KEY, n);
    IntIsMember(fields, CAP_KEY, CapOf(JObject(fields)));
  }

  class Workshop {
    /** The lifecycle file. */
    var tools: Tools
    var history: seq<Event>
    /** The tool directories that hold a manifest. */
    var installed: set<string>

    /** The records are the replay of the history, they are the installed tools, and the cap holds. */
    predicate Valid()
      reads this
    {
      && Legal(history) && tools == Replay(history) && Settled(tools)
      && tools.Keys == installed && |installed| <= CapOf(ratified)
    }

    /** The sandbox profile that was ratified. */
    const ratified: Json

    constructor (ratified: Json)
      ensures Valid() && tools == map[] && history == [] && this.ratified == ratified
    {
      this.ratified := ratified;
      tools := map[];
      history := [];
      installed := {};
    }

    method RegisterTool(name: string, at: int)
      requires Legal(history) && tools == Replay(history) && Settled(tools)
      modifies this`tools, this`history
      ensures Legal(history) && tools == Replay(history) && Settled(tools)
      ensures tools == old(tools)[name := Tool(name, Suggest, 0, at, at, Live, None)]
      ensures history == old(history) + [Born(at, name)]
    {
      LegalSnoc(history, Born(at, name));
      ReplaySnoc(history, Born(at, name));
      tools := tools[name := Newborn(name, at)];
      history := history + [Born(at, name)];
    }

    /** Apply the automatic promotion when it is earned; otherwise nothing. */
    method PromoteIfEarned(name: string, at: int) returns (r: Result<Tool, WorkshopError>)
      requires Legal(history) && tools == Replay(history)
      requires OthersSettled(tools, name)
      requires name in tools ==> tools[name].cleanRuns <= N_CLEAN_RUNS_FOR_ADVISORY || tools[name].tier != Suggest
      modifies this`tools, this`history
      ensures Legal(history) && tools == Replay(history) && Settled(tools)
      ensures r == if name in tools then Ok(tools[name]) else Err(UnknownTool)
      ensures if name in old(tools) && old(tools)[name].tier == Suggest && old(tools)[name].cleanRuns >= 5
              then tools == old(tools)[name := old(tools)[name].(tier := Advisory)]
                   && history == old(history) + [Promoted(at, name, Suggest, Advisory, None)]
              else tools == old(tools) && history == old(history)
    {
      if name !in tools { return Err(UnknownTool); }
      var tool := tools[name];
      if tool.tier != Suggest || tool.cleanRuns < N_CLEAN_RUNS_FOR_ADVISORY { return Ok(tool); }
      var e := Promoted(at, name, Suggest, Advisory, None);
      LegalSnoc(history, e);
      ReplaySnoc(history, e);
      tools := tools[name := tool.(tier := Advisory)];
      history := history + [e];
      return Ok(tools[name]);
    }

    /** Append one run. The tool may now be owed its promotion, so the state need not be settled in between. */
    method AppendRun(name: string, clean: bool, at: int)
      requires Valid() && name in tools
      modifies this`tools, this`history
      ensures Legal(history) && tools == Replay(history) && OthersSettled(tools, name)
      ensures tools == old(tools)[name := AfterRun(old(tools)[name], clean, at)]
      ensures history == old(history) + [Ran(at, name, clean)]
      ensures tools[name].cleanRuns <= N_CLEAN_RUNS_FOR_ADVISORY || tools[name].tier != Suggest
    {
      RunIsApplied(history, tools, name, clean, at);
      tools := tools[name := AfterRun(tools[name], clean, at)];
      history := history + [Ran(at, name, clean)];
    }

    /** Record one audited run, then apply the promotion it may have earned. */
    method RecordRun(name: string, clean: bool, at: int) returns (r: Result<Tool, WorkshopError>)
      requires Valid()
      modifies this`tools, this`history
      ensures Valid()
      ensures name !in old(tools) ==> r == Err(UnknownTool) && tools == old(tools) && history == old(history)
      ensures name in old(tools) ==>
        var streak := if clean then old(tools)[name].cleanRuns + 1 else 0;
        var earned := old(tools)[name].tier == Suggest && streak >= 5;
        var after := old(tools)[name].(
          cleanRuns := streak, lastUsedAt := at, tier := if earned then Advisory else old(tools)[name].tier);
        && r == Ok(after) && tools == old(tools)[name := after]
        && history == old(history) + [Ran(at, name, clean)] +
          (if earned then [Promoted(at, name, Suggest, Advisory, None)] else [])
    {
      if name !in tools { return Err(UnknownTool); }
      RunKeepsKeys(tools, name, AfterRun(tools[name], clean, at));
      AppendRun(name, clean, at);
      r := PromoteIfEarned(name, at);
    }

    /** Promote to enforce: the only way there, with a non-blank ratifier and from advisory only. */
    method Promote(name: string, ratifiedBy: string, at: int) returns (r: Result<Tool, WorkshopError>)
      requires Valid()
      modifies this`tools, this`history
      ensures Valid()
      ensures r.Err? ==> tools == old(tools) && history == old(history)
      ensures
        if Trim(ratifiedBy) == "" then r == Err(RatificationRequired)
        else if name !in old(tools) then r == Err(UnknownTool)
        else if old(tools)[name].tier != Advisory then r == Err(LadderOrder(old(tools)[name].tier))
        else r.Ok?
      ensures r.Ok? ==>
        && r.value == old(tools)[name].(tier := Enforce) && tools == old(tools)[name := r.value]
        && history == old(history) + [Promoted(at, name, Advisory, Enforce, Some(ratifiedBy))]
    {
      if Trim(ratifiedBy) == "" { return Err(RatificationRequired); }
      if name !in tools { return Err(UnknownTool); }
      if tools[name].tier != Advisory { return Err(LadderOrder(tools[name].tier)); }
      var e := Promoted(at, name, Advisory, Enforce, Some(ratifiedBy));
      LegalSnoc(history, e);
      ReplaySnoc(history, e);
      tools := tools[name := tools[name].(tier := Enforce)];
      history := history + [e];
      return Ok(tools[name]);
    }

    /** Decay one tool in the records; its event is appended to the history when the sweep ends. */
    method DecayTool(name: string, now: int, ghost sweep: Sweep) returns (events: seq<Event>, ghost after: Sweep)
      requires name in sweep.rest && SweepOk(sweep, tools, now)
      modifies this`tools
      ensures SweepOk(after, tools, now)
      ensures after == sweep.(rest := sweep.rest - {name}, events := sweep.events + events)
    {
      var (tool, event) := DecayOne(tools[name], now);
      SweepStep(sweep, tools, name, now);
      after := SweepNext(sweep, tools, name, now);
      tools := tools[name := tool];
      events := if event.Some? then [event.value] else [];
    }

    /** Visit every tool once, in any order. */
    method DecayAll(now: int) returns (events: seq<Event>)
      requires Legal(history) && tools == Replay(history) && Settled(tools)
      modifies this`tools
      ensures Legal(history + events) && tools == Replay(history + events) && Settled(tools)
      ensures Swept(old(tools), tools, {}, events, now) && tools.Keys == old(tools).Keys
    {
      ghost var start := Sweep(history, tools, tools.Keys, []);
      SweepStarts(history, tools, now);
      ghost var sweep := start;
      var rest := tools.Keys;
      events := [];
      while rest != {}
        invariant SweepOk(sweep, tools, now) && sweep == start.(rest := rest, events := events)
        decreases |rest|
      {
        var name :| name in rest;
        var more;
        more, sweep := DecayTool(name, now, sweep);
        events := events + more;
        rest := rest - {name};
      }
    }

    /** Sweep the records and append the transitions at the end: no tool is left unswept. */
    method SweepDecay(now: int) returns (events: seq<Event>)
      requires Valid()
      modifies this`tools, this`history
      ensures Valid()
      ensures history == old(history) + events
      ensures Swept(old(tools), tools, {}, events, now)
    {
      events := DecayAll(now);
      history := history + events;
    }

    method RecordRetirement(name: string, ratifiedBy: string, at: int)
      requires Legal(history) && tools == Replay(history) && Settled(tools)
      requires name in tools && Trim(ratifiedBy) != ""
      modifies this`tools, this`history
      ensures Legal(history) && tools == Replay(history) && Settled(tools)
      ensures tools == old(tools) - {name} && history == old(history) + [Retired(at, name, ratifiedBy)]
    {
      var e := Retired(at, name, ratifiedBy);
      LegalSnoc(history, e);
      ReplaySnoc(history, e);
      tools := tools - {name};
      history := history + [e];
    }

    /** Retire a live tool: its directory moves away and its record goes, only with a non-blank ratifier. */
    method Retire(name: string, ratifiedBy: string, at: int) returns (error: Option<WorkshopError>)
      requires Valid()
      modifies this
      ensures Valid()
      ensures error ==
        if Trim(ratifiedBy) == "" then Some(RatificationRequired)
        else if !ToolNameText(name) then Some(BadName)
        else if name !in old(tools) then Some(UnknownTool)
        else None
      ensures error.None? ==> tools == old(tools) - {name} && history == old(history) + [Retired(at, name, ratifiedBy)]
      ensures error.Some? ==> tools == old(tools) && history == old(history)
    {
      NameInWords(name);
      if Trim(ratifiedBy) == "" { return Some(RatificationRequired); }
      if !SafeToolName(name) { return Some(BadName); }
      if name !in installed { return Some(UnknownTool); }
      installed := installed - {name};
      RecordRetirement(name, ratifiedBy, at);
      return None;
    }

    /** The refusals that come before anything is generated: birth, profile, cap. */
    method CheckForge(spec: BirthSpec, profile: Json) returns (error: Option<WorkshopError>)
      requires WellFormed(profile) && WellFormed(ratified)
      ensures error ==
        if !BirthText(spec) then Some(BirthRefused)
        else if !SameData(profile, ratified) then Some(ProfileMismatch)
        else if |installed| >= CapOf(ratified) then Some(AtCapacity)
        else None
    {
      BirthInWords(spec);
      GateFixesCap(profile, ratified);
      if !ValidBirth(spec) { return Some(BirthRefused); }
      if Canonical(profile) != Canonical(ratified) { return Some(ProfileMismatch); }
      if |installed| >= CapOf(profile) { return Some(AtCapacity); }
      return None;
    }

    /** Move a tool that passed its test into place and write its birth record. */
    method Install(name: string, at: int)
      requires Valid() && |installed| < CapOf(ratified)
      modifies this
      ensures Valid()
      ensures tools == old(tools)[name := Tool(name, Suggest, 0, at, at, Live, None)]
      ensures history == old(history) + [Born(at, name)]
    {
      installed := installed + {name};
      RegisterTool(name, at);
    }

    /**
     * Forge in the original's hard order: birth, profile, cap, generate and test, install. The gate compares canonical
     * texts, which comes to comparing the profiles as data, so the cap read from the profile is the ratified one.
     */
    method Forge(spec: BirthSpec, profile: Json, testGreen: bool, at: int) returns (r: Result<string, WorkshopError>)
      requires Valid() && WellFormed(profile) && WellFormed(ratified)
      modifies this
      ensures Valid()
      ensures r.Ok? <==>
        BirthText(spec) && SameData(profile, ratified) && |old(installed)| < CapOf(ratified) && testGreen
      ensures !BirthText(spec) ==> r == Err(BirthRefused)
      ensures BirthText(spec) && !SameData(profile, ratified) ==> r == Err(ProfileMismatch)
      ensures BirthText(spec) && SameData(profile, ratified) && |old(installed)| >= CapOf(ratified) ==>
        r == Err(AtCapacity)
      ensures r.Ok? ==>
        && spec.manifestName == "workshop/" + r.value
        && tools == old(tools)[r.value := Tool(r.value, Suggest, 0, at, at, Live, None)]
        && history == old(history) + [Born(at, r.value)]
      ensures r.Err? ==> tools == old(tools) && history == old(history) && installed == old(installed)
    {
      BirthInWords(spec);
      var error := CheckForge(spec, profile);
      if error.Some? { return Err(error.value); }
      if !testGreen { return Err(TestFailed); }
      var name := spec.manifestName[|NAME_PREFIX|..];
      Install(name, at);
      return Ok(name);
    }
  }

  lemma RunKeepsKeys(tools: Tools, name: string, ran: Tool)
    requires name in tools
    ensures tools[name := ran].Keys == tools.Keys
    ensures
      var promoted := ran.(tier := Advisory);
      tools[name := ran][name := promoted] == tools[name := promoted] && tools[name := promoted].Keys == tools.Keys
  {}

  predicate OthersSettled(tools: Tools, name: string) {
    forall n :: n in tools && n != name ==> !Earned(tools[n])
  }

  lemma RunIsApplied(history: seq<Event>, tools: Tools, name: string, clean: bool, at: int)
    requires Legal(history) && tools == Replay(history) && Settled(tools) && name in tools
    ensures
      var ran := AfterRun(tools[name], clean, at);
      && Legal(history + [Ran(at, name, clean)]) && Replay(history + [Ran(at, name, clean)]) == tools[name := ran]
      && (ran.cleanRuns <= N_CLEAN_RUNS_FOR_ADVISORY || ran.tier != Suggest)
      && OthersSettled(tools[name := ran], name)
  {}

  /** A sweep so far: tools outside `rest` are decayed and have their event, tools in `rest` are untouched. */
  predicate Swept(before: Tools, tools: Tools, rest: set<string>, events: seq<Event>, now: int) {
    && tools.Keys == before.Keys
    && (forall n :: n in before ==> tools[n] == if n in rest then before[n] else DecayOne(before[n], now).0)
    && (forall e :: e in events ==> e.tool in before && e.tool !in rest && DecayOne(before[e.tool], now).1 == Some(e))
    && (forall n :: n in before && n !in rest && DecayOne(before[n], now).1.Some? ==>
        DecayOne(before[n], now).1.value in events)
    && forall i, j :: 0 <= i < j < |events| ==> events[i].tool != events[j].tool
  }

  /** A sweep in progress: the history and records it began with, the tools still to visit, the events so far. */
  datatype Sweep = Sweep(history: seq<Event>, before: Tools, rest: set<string>, events: seq<Event>)

  predicate SweepOk(sweep: Sweep, tools: Tools, now: int) {
    && sweep.rest <= sweep.before.Keys
    && Legal(sweep.history + sweep.events) && tools == Replay(sweep.history + sweep.events) && Settled(tools)
    && Swept(sweep.before, tools, sweep.rest, sweep.events, now)
  }

  function SweepNext(sweep: Sweep, tools: Tools, name: string, now: int): Sweep
    requires name in tools
  {
    var (_, event) := DecayOne(tools[name], now);
    Sweep(sweep.history, sweep.before, sweep.rest - {name}, sweep.events + if event.Some? then [event.value] else [])
  }

  lemma SweepStarts(history: seq<Event>, tools: Tools, now: int)
    requires Legal(history) && tools == Replay(history) && Settled(tools)
    ensures SweepOk(Sweep(history, tools, tools.Keys, []), tools, now)
  {
    assert history + [] == history;
  }

  lemma SweepStep(sweep: Sweep, tools: Tools, name: string, now: int)
    requires name in sweep.rest && SweepOk(sweep, tools, now)
    ensures name in tools
      && SweepOk(SweepNext(sweep, tools, name, now), tools[name := DecayOne(tools[name], now).0], now)
  {
    var soFar := sweep.history + sweep.events;
    NamesAreKeys(soFar, name);
    SweptStep(sweep.before, tools, sweep.rest, sweep.events, name, now);
    DecayIsReplayed(soFar, tools, name, now);
    var event := DecayOne(tools[name], now).1;
    if event.Some? {
      assert sweep.history + (sweep.events + [event.value]) == soFar + [event.value];
    } else {
      assert sweep.events + [] == sweep.events;
    }
  }

  /** Decaying one tool is what its event, if it has one, replays to. */
  lemma DecayIsReplayed(history: seq<Event>, tools: Tools, name: string, now: int)
    requires Legal(history) && tools == Replay(history) && Settled(tools) && name in tools && tools[name].name == name
    ensures
      var (tool, event) := DecayOne(tools[name], now);
      && Settled(tools[name := tool])
      && (event.None? ==> tools[name := tool] == tools)
      && (event.Some? ==> Legal(history + [event.value]) && Replay(history + [event.value]) == tools[name := tool])
  {}

  lemma SweptStep(before: Tools, tools: Tools, rest: set<string>, events: seq<Event>, name: string, now: int)
    requires name in rest && rest <= before.Keys && Swept(before, tools, rest, events, now) && tools[name].name == name
    ensures
      var (tool, event) := DecayOne(tools[name], now);
      Swept(before, tools[name := tool], rest - {name}, if event.Some? then events + [event.value] else events, now)
  {}
}
