/** The workshop's clocks read off the history alone, and when a sweep demotes a tool. */
module ToolHistory {
  import opened Prelude
  import opened WorkshopLadder

  /** Thirty days in milliseconds. */
  const WINDOW := 2592000000

  /** When the tool's present life began. */
  function BirthOf(history: seq<Event>, name: string): Option<int> {
    if history == [] then None
    else
      var e := history[|history| - 1];
      if e.tool != name then BirthOf(history[..|history| - 1], name)
      else if e.Born? then Some(e.at)
      else if e.Retired? then None
      else BirthOf(history[..|history| - 1], name)
  }

  /** The tool's last run in its present life, or its birth if it never ran. */
  function LastUse(history: seq<Event>, name: string): Option<int> {
    if history == [] then None
    else
      var e := history[|history| - 1];
      if e.tool != name then LastUse(history[..|history| - 1], name)
      else if e.Born? || e.Ran? then Some(e.at)
      else if e.Retired? then None
      else LastUse(history[..|history| - 1], name)
  }

  /** The tool's last demotion or removal proposal in its present life. */
  function LastDecay(history: seq<Event>, name: string): Option<int> {
    if history == [] then None
    else
      var e := history[|history| - 1];
      if e.tool != name then LastDecay(history[..|history| - 1], name)
      else if e.Decayed? || e.Proposed? then Some(e.at)
      else if e.Born? || e.Retired? then None
      else LastDecay(history[..|history| - 1], name)
  }

  /** The record of a live tool tells its birth, its last use and its last decay as the history does. */
  predicate ClocksAgree(history: seq<Event>, name: string, tool: Tool) {
    && Some(tool.born) == BirthOf(history, name) && Some(tool.lastUsedAt) == LastUse(history, name)
    && tool.decayedAt == LastDecay(history, name)
  }

  lemma ClockStep(init: seq<Event>, e: Event, name: string, before: Tools)
    requires before == Replay(init) && EventOk(before, e) && name in Apply(before, e)
    requires name in before ==> ClocksAgree(init, name, before[name])
    ensures ClocksAgree(init + [e], name, Apply(before, e)[name])
  {
    assert (init + [e])[..|init|] == init && (init + [e])[|init|] == e;
  }

  /** Over every legal history the stored clocks are the history's. */
  lemma {:induction false} ClocksAreTheHistory(history: seq<Event>, name: string)
    requires Legal(history) && name in Replay(history)
    ensures ClocksAgree(history, name, Replay(history)[name])
  {
    var init, e := history[..|history| - 1], history[|history| - 1];
    assert history == init + [e];
    if name in Replay(init) { ClocksAreTheHistory(init, name); }
    ClockStep(init, e, name, Replay(init));
  }

  /**
   * The tool was last used, and last decayed, more than the window before `now`; one that never decayed counts as
   * decayed when the clock began.
   */
  predicate Idle(history: seq<Event>, name: string, now: int) {
    var use, decay := LastUse(history, name), LastDecay(history, name);
    use.Some? && now - use.value > WINDOW && now - (if decay.Some? then decay.value else 0) > WINDOW
  }

  lemma {:induction false} LegalPrefix(history: seq<Event>, i: nat)
    requires Legal(history) && i < |history|
    ensures Legal(history[..i]) && EventOk(Replay(history[..i]), history[i])
    decreases |history|
  {
    if i < |history| - 1 {
      LegalPrefix(history[..|history| - 1], i);
      assert history[..|history| - 1][..i] == history[..i];
    }
  }

  /**
   * In every legal history a tool is demoted, or proposed for removal, only more than thirty days after its last run
   * (or its birth) and after its last demotion: a tool that is used is never decayed.
   */
  lemma OnlyIdleToolsDecay(history: seq<Event>, i: nat)
    requires Legal(history) && i < |history| && (history[i].Decayed? || history[i].Proposed?)
    ensures Idle(history[..i], history[i].tool, history[i].at)
  {
    var before, name := history[..i], history[i].tool;
    LegalPrefix(history, i);
    ClocksAreTheHistory(before, name);
  }

  /** What a sweep does to a tool, as its rung and the history tell it. */
  function SweepEvent(tool: Tool, now: int, due: bool): Option<Event> {
    if !due then None
    else match tool.tier
      case Enforce => Some(Decayed(now, tool.name, Enforce, Advisory))
      case Advisory => Some(Decayed(now, tool.name, Advisory, Suggest))
      case Suggest => if tool.status == Live then Some(Proposed(now, tool.name)) else None
  }

  /**
   * A sweep decays every idle tool and no other, one rung each: from enforce to advisory, from advisory to suggest, and
   * from suggest to a removal proposal, once. The record afterwards is what its event replays to.
   */
  lemma SweepIsExact(history: seq<Event>, name: string, now: int)
    requires Legal(history) && name in Replay(history)
    ensures
      var tool := Replay(history)[name];
      var event := SweepEvent(tool, now, Idle(history, name, now));
      && DecayOne(tool, now).1 == event
      && DecayOne(tool, now).0 == if event.Some? then ApplyTo(tool, event.value) else tool
  {
    ClocksAreTheHistory(history, name);
    NamesAreKeys(history, name);
  }
}
