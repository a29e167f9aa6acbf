/** The fenced block that a model's answer may wrap its JSON in, as the original's regular expression captures it. */
module Fence {
  import opened Prelude
  import opened Text

  const TICKS := "```"
  const JSON := "json"

  predicate At(s: string, i: nat, t: string) {
    i + |t| <= |s| && s[i..i + |t|] == t
  }

  // ----- what the regular expression matches -----

  /** A match: where its ticks are, the length of the word after them, the line break, and the closing ticks. */
  datatype Match = Match(start: nat, word: nat, lineBreak: nat, close: nat)

  /** Ticks, the word `json` or nothing, white space up to a line break, what is captured, ticks. */
  predicate IsMatch(s: string, m: Match) {
    && At(s, m.start, TICKS) && (m.word == 0 || (m.word == |JSON| && At(s, m.start + |TICKS|, JSON)))
    && IsBreak(s, m.start + |TICKS| + m.word, m.lineBreak) && m.lineBreak < m.close && At(s, m.close, TICKS)
  }

  /** From `i` on there is white space only, up to a line break at `k`. */
  predicate IsBreak(s: string, i: nat, k: nat) {
    i <= k < |s| && s[k] == '\n' && forall j :: i <= j < k ==> IsSpace(s[j])
  }

  /** The order in which matches are preferred: leftmost, with the word, most white space, shortest capture. */
  predicate Preferred(m: Match, other: Match) {
    || m.start < other.start
    || (m.start == other.start
        && (m.word > other.word
            || (m.word == other.word
                && (m.lineBreak > other.lineBreak || (m.lineBreak == other.lineBreak && m.close <= other.close)))))
  }

  /** The match that a search from `i` on reports. */
  ghost predicate FirstFrom(s: string, i: nat, m: Match) {
    IsMatch(s, m) && m.start >= i && forall o :: IsMatch(s, o) && o.start >= i ==> Preferred(m, o)
  }

  // ----- finding it -----

  /** The first occurrence of `t` from `i` on. */
  function Find(s: string, t: string, i: nat): (r: Option<nat>)
    ensures r.Some? ==> i <= r.value && At(s, r.value, t)
    ensures forall j: nat :: i <= j && At(s, j, t) ==> r.Some? && r.value <= j
    decreases |s| - i
  {
    if At(s, i, t) then Some(i) else if i >= |s| then None else Find(s, t, i + 1)
  }

  /** The last line break of the white space that starts at `i`. */
  function LastBreak(s: string, i: nat): (r: Option<nat>)
    ensures r.Some? ==> IsBreak(s, i, r.value)
    ensures forall k: nat :: IsBreak(s, i, k) ==> r.Some? && k <= r.value
    decreases |s| - i
  {
    if i >= |s| || !IsSpace(s[i]) then None
    else
      assert forall k: nat :: IsBreak(s, i, k) && k > i ==> IsBreak(s, i + 1, k);
      match LastBreak(s, i + 1)
      case Some(k) => Some(k)
      case None => if s[i] == '\n' then Some(i) else None
  }

  /** The length of the optional word after the ticks at `i`. */
  function WordAt(s: string, i: nat): nat {
    if At(s, i + |TICKS|, JSON) then |JSON| else 0
  }

  /** The preferred match among those that start at `i`. */
  function MatchAt(s: string, i: nat): Option<Match> {
    if !At(s, i, TICKS) then None
    else match LastBreak(s, i + |TICKS| + WordAt(s, i))
      case None => None
      case Some(k) =>
        match Find(s, TICKS, k + 1)
        case None => None
        case Some(e) => Some(Match(i, WordAt(s, i), k, e))
  }

  function MatchFrom(s: string, i: nat): Option<Match>
    decreases |s| - i
  {
    if i >= |s| then None else if MatchAt(s, i).Some? then MatchAt(s, i) else MatchFrom(s, i + 1)
  }

  /** The captured block if there is one, even an empty one; otherwise the whole answer. */
  function Candidate(raw: string): string {
    match MatchFrom(raw, 0)
    case Some(m) => if m.lineBreak < m.close <= |raw| then raw[m.lineBreak + 1..m.close] else raw
    case None => raw
  }

  /** Whether the word is there is no choice: with `json` left to it, the white space could not start. */
  lemma WordIsFixed(s: string, m: Match)
    requires IsMatch(s, m)
    ensures m.word == WordAt(s, m.start)
  {
    FirstChar(s, m.start + |TICKS|, JSON);
  }

  lemma FirstChar(s: string, i: nat, t: string)
    requires t != ""
    ensures At(s, i, t) ==> s[i] == t[0]
  {
    assert At(s, i, t) ==> s[i..i + |t|][0] == s[i];
  }

  /** White space holds no ticks, so the closing ones come after the last line break. */
  lemma ClosesAfterBreaks(s: string, m: Match, k: nat)
    requires IsMatch(s, m) && IsBreak(s, m.start + |TICKS| + m.word, k)
    ensures k < m.close
  {
    FirstChar(s, m.close, TICKS);
  }

  lemma MatchAtIsBest(s: string, m: Match)
    requires IsMatch(s, m)
    ensures MatchAt(s, m.start).Some? && Preferred(MatchAt(s, m.start).value, m)
  {
    WordIsFixed(s, m);
    var k := LastBreak(s, m.start + |TICKS| + m.word).value;
    ClosesAfterBreaks(s, m, k);
  }

  lemma MatchAtIsMatch(s: string, i: nat)
    ensures MatchAt(s, i).Some? ==> IsMatch(s, MatchAt(s, i).value) && MatchAt(s, i).value.start == i
  {}

  ghost predicate NoneFrom(s: string, i: nat) {
    forall o :: IsMatch(s, o) ==> o.start < i
  }

  lemma FoundHere(s: string, i: nat, m: Match)
    requires IsMatch(s, m) && m.start == i
    requires forall o :: IsMatch(s, o) && o.start == i ==> Preferred(m, o)
    ensures FirstFrom(s, i, m)
  {}

  lemma NotHere(s: string, i: nat)
    requires forall o :: IsMatch(s, o) ==> o.start != i
    ensures NoneFrom(s, i + 1) ==> NoneFrom(s, i)
    ensures forall m :: FirstFrom(s, i + 1, m) ==> FirstFrom(s, i, m)
  {}

  lemma NothingPastTheEnd(s: string, i: nat)
    requires i >= |s|
    ensures NoneFrom(s, i)
  {}

  lemma AllAtIsBest(s: string, i: nat)
    ensures forall m :: IsMatch(s, m) && m.start == i ==>
      MatchAt(s, i).Some? && Preferred(MatchAt(s, i).value, m)
  {
    forall m | IsMatch(s, m) && m.start == i { MatchAtIsBest(s, m); }
  }

  lemma {:induction false} MatchFromIsFirst(s: string, i: nat)
    ensures if MatchFrom(s, i).Some? then FirstFrom(s, i, MatchFrom(s, i).value) else NoneFrom(s, i)
    decreases |s| - i
  {
    if i >= |s| {
      NothingPastTheEnd(s, i);
    } else {
      AllAtIsBest(s, i);
      if MatchAt(s, i).Some? {
        MatchAtIsMatch(s, i);
        FoundHere(s, i, MatchAt(s, i).value);
      } else {
        MatchFromIsFirst(s, i + 1);
        NotHere(s, i);
      }
    }
  }

  lemma PreferredIsUnique(m: Match, o: Match)
    requires Preferred(m, o) && Preferred(o, m)
    ensures m == o
  {}

  /** The candidate is what the preferred match captures; without any match it is the whole answer. */
  lemma CandidateIsCaptured(raw: string, m: Match)
    ensures FirstFrom(raw, 0, m) ==> Candidate(raw) == raw[m.lineBreak + 1..m.close]
    ensures (forall o :: !IsMatch(raw, o)) ==> Candidate(raw) == raw
  {
    MatchFromIsFirst(raw, 0);
    if FirstFrom(raw, 0, m) { PreferredIsUnique(m, MatchFrom(raw, 0).value); }
  }

  // ----- a block after prose -----

  predicate FirstTicks(block: string, e: nat) {
    At(block, e, TICKS) && forall j: nat :: j < e ==> !At(block, j, TICKS)
  }

  lemma AtSuffix(p: string, s: string, i: nat, t: string)
    ensures At(p + s, |p| + i, t) <==> At(s, i, t)
  {
    if |p| + i + |t| <= |p + s| { assert (p + s)[|p| + i..|p| + i + |t|] == s[i..i + |t|]; }
  }

  const OPENING := TICKS + JSON + "\n"

  lemma OpeningParts()
    ensures |OPENING| == 8 && OPENING[..3] == TICKS && OPENING[3..7] == JSON && OPENING[7] == '\n'
  {}

  /** The match in prose without ticks, an opening fence, and a block whose first ticks are at `e`. */
  function BlockMatch(prose: string, e: nat): Match {
    Match(|prose|, 4, |prose| + 7, |prose| + 8 + e)
  }

  lemma BlockIsMatch(prose: string, block: string, e: nat)
    requires FirstTicks(block, e)
    ensures IsMatch(prose + OPENING + block, BlockMatch(prose, e))
  {
    var s := prose + OPENING + block;
    OpeningParts();
    assert s[|prose|..|prose| + 3] == OPENING[..3] && s[|prose| + 3..|prose| + 7] == OPENING[3..7];
    assert s[|prose| + 7] == OPENING[7];
    AtSuffix(prose + OPENING, block, e, TICKS);
  }

  /** No match starts in the prose. */
  lemma StartsAfterProse(prose: string, tail: string, o: Match)
    requires '`' !in prose && IsMatch(prose + tail, o)
    ensures o.start >= |prose|
  {
    FirstChar(prose + tail, o.start, TICKS);
  }

  lemma BlockIsPreferred(prose: string, block: string, e: nat, o: Match)
    requires FirstTicks(block, e) && !IsSpace(block[0]) && '`' !in prose
    requires IsMatch(prose + OPENING + block, o)
    ensures Preferred(BlockMatch(prose, e), o)
  {
    var s := prose + OPENING + block;
    assert s == prose + (OPENING + block);
    StartsAfterProse(prose, OPENING + block, o);
    OpeningParts();
    if o.start == |prose| && o.word == 4 {
      assert s[|prose| + 8] == block[0];
      assert o.lineBreak == |prose| + 7;
      if o.close < |prose| + 8 + e { AtSuffix(prose + OPENING, block, o.close - |prose| - 8, TICKS); }
    }
  }

  /** A fenced block after prose without backticks is captured up to the first ticks inside it. */
  lemma BlockIsCaptured(prose: string, block: string, e: nat)
    requires FirstTicks(block, e) && !IsSpace(block[0]) && '`' !in prose
    ensures Candidate(prose + OPENING + block) == block[..e]
  {
    var s, m := prose + OPENING + block, BlockMatch(prose, e);
    BlockIsMatch(prose, block, e);
    forall o | IsMatch(s, o) { BlockIsPreferred(prose, block, e, o); }
    CandidateIsCaptured(s, m);
    OpeningParts();
    assert s[|prose| + 8..|prose| + 8 + e] == block[..e];
  }
}
