/** Constraint tags: the typed reader over a task's `key:value` constraint strings. */
module ConstraintTags {
  import opened Prelude
  import opened Text

  datatype Altitude = Epic | Story | Task

  /** The tag keys this reader knows; any other key passes through. */
  datatype TagKey = AltitudeKey | TrackKey | SprintKey | AssignKey

  datatype Tags = Tags(
    altitude: Option<Altitude>,
    track: Option<string>,
    sprint: Option<string>,
    assign: Option<string>,
    other: seq<string>)

  const NO_TAGS := Tags(None, None, None, None, [])

  datatype TagError = Repeated(key: TagKey) | BadAltitude(value: string) | UnsafeValue(key: TagKey, value: string)

  function KeyName(k: TagKey): string {
    match k
    case AltitudeKey => "altitude"
    case TrackKey => "track"
    case SprintKey => "sprint"
    case AssignKey => "assign"
  }

  function ReadKey(s: string): (k: Option<TagKey>)
    ensures k.Some? ==> KeyName(k.value) == s
    ensures k.None? ==> forall j :: KeyName(j) != s
  {
    if s == "altitude" then Some(AltitudeKey) else if s == "track" then Some(TrackKey)
    else if s == "sprint" then Some(SprintKey) else if s == "assign" then Some(AssignKey) else None
  }

  function AltitudeName(a: Altitude): string {
    match a case Epic => "epic" case Story => "story" case Task => "task"
  }

  function ReadAltitude(s: string): (a: Option<Altitude>)
    ensures a.Some? ==> AltitudeName(a.value) == s
    ensures a.None? ==> forall b :: AltitudeName(b) != s
  {
    if s == "epic" then Some(Epic) else if s == "story" then Some(Story) else if s == "task" then Some(Task) else None
  }

  predicate IsAlphanumeric(c: char) { 'A' <= c <= 'Z' || 'a' <= c <= 'z' || '0' <= c <= '9' }

  /** A leading alphanumeric, then alphanumerics and `._-`. */
  predicate SafeValue(s: string) {
    && s != [] && IsAlphanumeric(s[0])
    && forall i :: 0 <= i < |s| ==> IsAlphanumeric(s[i]) || s[i] in "._-"
  }

  function ConstraintTag(key: TagKey, value: string): string {
    KeyName(key) + ":" + value
  }

  /** The known key `raw` carries, if any: the text before its first colon. */
  function KeyOf(raw: string): Option<TagKey> {
    match IndexOf(raw, ':') case None => None case Some(i) => ReadKey(raw[..i])
  }

  /** The text after the first colon. */
  function ValueOf(raw: string): string {
    match IndexOf(raw, ':') case None => "" case Some(i) => raw[i + 1..]
  }

  lemma TagReadsBack(key: TagKey, value: string)
    ensures KeyOf(ConstraintTag(key, value)) == Some(key)
    ensures ValueOf(ConstraintTag(key, value)) == value
  {
    var name := KeyName(key);
    assert ':' !in name;
    IndexOfUnique(name, ':', value);
    var raw := ConstraintTag(key, value);
    assert raw == name + [':'] + value;
    assert raw[..|name|] == name && raw[|name| + 1..] == value;
  }

  /** Record one track or sprint value, rejecting a repeat and an unsafe value. */
  function SetLabelTag(current: Option<string>, key: TagKey, value: string): Result<string, TagError> {
    if current.Some? then Err(Repeated(key))
    else if !SafeValue(value) then Err(UnsafeValue(key, value))
    else Ok(value)
  }

  function SetTag(out: Tags, key: TagKey, value: string): Result<Tags, TagError> {
    match key
    case AltitudeKey =>
      if out.altitude.Some? then Err(Repeated(key))
      else
        (match ReadAltitude(value)
         case None => Err(BadAltitude(value))
         case Some(a) => Ok(out.(altitude := Some(a))))
    case AssignKey => Ok(out.(assign := Some(value)))
    case TrackKey =>
      (match SetLabelTag(out.track, key, value) case Err(e) => Err(e) case Ok(v) => Ok(out.(track := Some(v))))
    case SprintKey =>
      (match SetLabelTag(out.sprint, key, value) case Err(e) => Err(e) case Ok(v) => Ok(out.(sprint := Some(v))))
  }

  function ReadOne(out: Tags, raw: string): Result<Tags, TagError> {
    match KeyOf(raw)
    case None => Ok(out.(other := out.other + [raw]))
    case Some(key) => SetTag(out, key, ValueOf(raw))
  }

  /** The tags of a constraint list, read left to right. */
  function TagsOf(constraints: seq<string>): Result<Tags, TagError> {
    if constraints == [] then Ok(NO_TAGS)
    else match TagsOf(constraints[..|constraints| - 1])
      case Err(e) => Err(e)
      case Ok(out) => ReadOne(out, constraints[|constraints| - 1])
  }

  /** The reader as the original writes it: one pass that fills `out` and throws on the first bad tag. */
  method ParseConstraintTags(constraints: seq<string>) returns (r: Result<Tags, TagError>)
    ensures r == TagsOf(constraints)
  {
    var out := NO_TAGS;
    for i := 0 to |constraints|
      invariant TagsOf(constraints[..i]) == Ok(out)
    {
      var step := ReadOne(out, constraints[i]);
      assert constraints[..i + 1][..i] == constraints[..i];
      if step.Err? {
        ErrorsPersist(constraints, i + 1);
        return step;
      }
      out := step.value;
    }
    assert constraints[..|constraints|] == constraints;
    return Ok(out);
  }

  lemma {:induction false} ErrorsPersist(constraints: seq<string>, i: nat)
    requires i <= |constraints| && TagsOf(constraints[..i]).Err?
    ensures TagsOf(constraints) == TagsOf(constraints[..i])
    decreases |constraints| - i
  {
    if i == |constraints| {
      assert constraints[..i] == constraints;
    } else {
      assert constraints[..i + 1][..i] == constraints[..i];
      ErrorsPersist(constraints, i + 1);
    }
  }

  // ----- what a constraint list means, stated without the reader -----

  /** The free-form constraints, in order. */
  function Free(constraints: seq<string>): seq<string> {
    if constraints == [] then []
    else Free(constraints[..|constraints| - 1]) +
         (if KeyOf(constraints[|constraints| - 1]).None? then [constraints[|constraints| - 1]] else [])
  }

  /** The values given to `key`, in order. */
  function Values(constraints: seq<string>, key: TagKey): seq<string> {
    if constraints == [] then []
    else Values(constraints[..|constraints| - 1], key) +
         (if KeyOf(constraints[|constraints| - 1]) == Some(key) then [ValueOf(constraints[|constraints| - 1])] else [])
  }

  function First(values: seq<string>): Option<string> {
    if values == [] then None else Some(values[0])
  }

  function Last(values: seq<string>): Option<string> {
    if values == [] then None else Some(values[|values| - 1])
  }

  predicate OneAltitude(values: seq<string>) {
    |values| <= 1 && forall v | v in values :: ReadAltitude(v).Some?
  }

  predicate OneSafeValue(values: seq<string>) {
    |values| <= 1 && forall v | v in values :: SafeValue(v)
  }

  predicate LegalTags(altitudes: seq<string>, tracks: seq<string>, sprints: seq<string>) {
    OneAltitude(altitudes) && OneSafeValue(tracks) && OneSafeValue(sprints)
  }

  function Assemble(altitudes: seq<string>, tracks: seq<string>, sprints: seq<string>, assigns: seq<string>,
                    free: seq<string>): Tags
  {
    Tags(if altitudes == [] then None else ReadAltitude(altitudes[0]), First(tracks), First(sprints), Last(assigns),
         free)
  }

  /** Readable: at most one altitude, track and sprint, each with a legal value. */
  predicate WellTagged(constraints: seq<string>) {
    LegalTags(Values(constraints, AltitudeKey), Values(constraints, TrackKey), Values(constraints, SprintKey))
  }

  /** What a readable list says: its single values, its last assignment, its free-form rest. */
  function MeaningOf(constraints: seq<string>): Tags {
    Assemble(Values(constraints, AltitudeKey), Values(constraints, TrackKey), Values(constraints, SprintKey),
             Values(constraints, AssignKey), Free(constraints))
  }

  lemma ValuesOfSnoc(init: seq<string>, raw: string, key: TagKey)
    ensures Values(init + [raw], key) ==
      if KeyOf(raw) == Some(key) then Values(init, key) + [ValueOf(raw)] else Values(init, key)
    ensures Free(init + [raw]) == if KeyOf(raw).None? then Free(init) + [raw] else Free(init)
  {}

  lemma SetTagIsExact(a: seq<string>, t: seq<string>, s: seq<string>, g: seq<string>, f: seq<string>, key: TagKey,
                      v: string)
    requires LegalTags(a, t, s)
    ensures
      var a', t' := if key.AltitudeKey? then a + [v] else a, if key.TrackKey? then t + [v] else t;
      var s' := if key.SprintKey? then s + [v] else s;
      var g' := if key.AssignKey? then g + [v] else g;
      var r := SetTag(Assemble(a, t, s, g, f), key, v);
      && (r.Ok? <==> LegalTags(a', t', s'))
      && (r.Ok? ==> r.value == Assemble(a', t', s', g', f))
  {}

  lemma MeaningOfSnoc(init: seq<string>, raw: string, key: TagKey)
    requires KeyOf(raw) == Some(key)
    ensures
      var a, t := Values(init, AltitudeKey), Values(init, TrackKey);
      var s, g, v := Values(init, SprintKey), Values(init, AssignKey), ValueOf(raw);
      var a', t' := if key.AltitudeKey? then a + [v] else a, if key.TrackKey? then t + [v] else t;
      var s', g' := if key.SprintKey? then s + [v] else s, if key.AssignKey? then g + [v] else g;
      && (WellTagged(init + [raw]) <==> LegalTags(a', t', s'))
      && MeaningOf(init + [raw]) == Assemble(a', t', s', g', Free(init))
  {
    forall k { ValuesOfSnoc(init, raw, k); }
  }

  lemma FreeIsRead(init: seq<string>, raw: string)
    requires KeyOf(raw).None?
    ensures WellTagged(init + [raw]) <==> WellTagged(init)
    ensures ReadOne(MeaningOf(init), raw) == Ok(MeaningOf(init + [raw]))
  {
    forall key { ValuesOfSnoc(init, raw, key); }
  }

  lemma TagIsRead(init: seq<string>, raw: string, key: TagKey, meaning: Tags)
    requires WellTagged(init) && KeyOf(raw) == Some(key) && meaning == MeaningOf(init)
    ensures SetTag(meaning, key, ValueOf(raw)).Ok? <==> WellTagged(init + [raw])
    ensures WellTagged(init + [raw]) ==> SetTag(meaning, key, ValueOf(raw)).value == MeaningOf(init + [raw])
  {
    MeaningOfSnoc(init, raw, key);
    SetTagIsExact(Values(init, AltitudeKey), Values(init, TrackKey), Values(init, SprintKey), Values(init, AssignKey),
                  Free(init), key, ValueOf(raw));
  }

  lemma ReadOneIsExact(init: seq<string>, raw: string)
    requires WellTagged(init)
    ensures ReadOne(MeaningOf(init), raw).Ok? <==> WellTagged(init + [raw])
    ensures WellTagged(init + [raw]) ==> ReadOne(MeaningOf(init), raw).value == MeaningOf(init + [raw])
  {
    if KeyOf(raw).None? {
      FreeIsRead(init, raw);
    } else {
      TagIsRead(init, raw, KeyOf(raw).value, MeaningOf(init));
    }
  }

  lemma BadStaysBad(init: seq<string>, raw: string)
    requires !WellTagged(init)
    ensures !WellTagged(init + [raw])
  {}

  /** The reader accepts exactly the well-tagged lists, and then returns their meaning. */
  lemma {:induction false} ReaderIsExact(constraints: seq<string>)
    ensures TagsOf(constraints).Ok? <==> WellTagged(constraints)
    ensures WellTagged(constraints) ==> TagsOf(constraints).value == MeaningOf(constraints)
  {
    if constraints != [] {
      var init, raw := constraints[..|constraints| - 1], constraints[|constraints| - 1];
      assert constraints == init + [raw];
      ReaderIsExact(init);
      if WellTagged(init) { ReadOneIsExact(init, raw); } else { BadStaysBad(init, raw); }
    }
  }

  lemma Concatenation(a: seq<string>, b: seq<string>, key: TagKey)
    ensures Free(a + b) == Free(a) + Free(b)
    ensures Values(a + b, key) == Values(a, key) + Values(b, key)
  {
    FreeOfConcat(a, b);
    ValuesOfConcat(a, b, key);
  }

  lemma {:induction false} FreeOfConcat(a: seq<string>, b: seq<string>)
    ensures Free(a + b) == Free(a) + Free(b)
  {
    if b == [] {
      assert a + b == a;
    } else {
      FreeOfConcat(a, b[..|b| - 1]);
      SplitLast(a, b);
    }
  }

  lemma {:induction false} ValuesOfConcat(a: seq<string>, b: seq<string>, key: TagKey)
    ensures Values(a + b, key) == Values(a, key) + Values(b, key)
  {
    if b == [] {
      assert a + b == a;
    } else {
      ValuesOfConcat(a, b[..|b| - 1], key);
      SplitLast(a, b);
    }
  }

  lemma SplitLast(a: seq<string>, b: seq<string>)
    requires b != []
    ensures (a + b)[..|a + b| - 1] == a + b[..|b| - 1] && (a + b)[|a + b| - 1] == b[|b| - 1]
  {}

  lemma {:induction false} FreeHasNoValues(constraints: seq<string>, key: TagKey)
    ensures Values(Free(constraints), key) == []
    ensures Free(Free(constraints)) == Free(constraints)
  {
    if constraints != [] {
      var init, raw := constraints[..|constraints| - 1], constraints[|constraints| - 1];
      FreeHasNoValues(init, key);
      if KeyOf(raw).None? { assert Free(constraints)[..|Free(init)|] == Free(init); }
      else { assert Free(constraints) == Free(init); }
    }
  }

  lemma {:induction false} FreeIsASelection(constraints: seq<string>)
    ensures forall c :: c in Free(constraints) <==> c in constraints && KeyOf(c).None?
  {
    if constraints != [] {
      FreeIsASelection(constraints[..|constraints| - 1]);
      assert constraints == constraints[..|constraints| - 1] + [constraints[|constraints| - 1]];
    }
  }

  /** Reading the free-form constraints of any readable list again yields them and nothing else. */
  lemma ReaderIsIdempotent(constraints: seq<string>)
    requires TagsOf(constraints).Ok?
    ensures TagsOf(TagsOf(constraints).value.other) == Ok(NO_TAGS.(other := TagsOf(constraints).value.other))
  {
    ReaderIsExact(constraints);
    ReaderIsExact(Free(constraints));
    forall key { FreeHasNoValues(constraints, key); }
  }

  // ----- the same in words -----

  /** A constraint carries a known key exactly when it is that key, a colon and a value. */
  lemma KeyInWords(raw: string, key: TagKey)
    ensures KeyOf(raw) == Some(key) <==> exists value :: raw == KeyName(key) + ":" + value
  {
    if KeyOf(raw) == Some(key) {
      var i := IndexOf(raw, ':').value;
      assert raw == KeyName(key) + ":" + raw[i + 1..];
    }
    if value :| raw == KeyName(key) + ":" + value { TagReadsBack(key, value); }
  }

  /** A letter or digit, then letters, digits, dots, underscores and hyphens. */
  predicate ValueText(s: string) {
    && s != "" && s[0] != '.' && s[0] != '_' && s[0] != '-'
    && forall i :: 0 <= i < |s| ==>
         'A' <= s[i] <= 'Z' || 'a' <= s[i] <= 'z' || '0' <= s[i] <= '9' || s[i] == '.' || s[i] == '_' || s[i] == '-'
  }

  lemma ValueInWords(s: string)
    ensures SafeValue(s) <==> ValueText(s)
  {}

  lemma AltitudeInWords(s: string, a: Altitude)
    ensures ReadAltitude(s) == Some(a) <==>
      (a == Epic && s == "epic") || (a == Story && s == "story") || (a == Task && s == "task")
  {}

  /**
   * A list is readable exactly with at most one altitude (epic, story or task), at most one track and at most one
   * sprint, both sound; it then says its one altitude, track and sprint and its last assignment.
   */
  lemma ReaderInWords(constraints: seq<string>)
    ensures TagsOf(constraints).Ok? <==>
      && |Values(constraints, AltitudeKey)| <= 1
      && (forall v :: v in Values(constraints, AltitudeKey) ==> v == "epic" || v == "story" || v == "task")
      && |Values(constraints, TrackKey)| <= 1 && (forall v :: v in Values(constraints, TrackKey) ==> ValueText(v))
      && |Values(constraints, SprintKey)| <= 1 && (forall v :: v in Values(constraints, SprintKey) ==> ValueText(v))
    ensures TagsOf(constraints).Ok? ==>
      var tags := TagsOf(constraints).value;
      && (forall a :: tags.altitude == Some(a) <==> Values(constraints, AltitudeKey) == [AltitudeName(a)])
      && (forall v :: tags.track == Some(v) <==> Values(constraints, TrackKey) == [v])
      && (forall v :: tags.sprint == Some(v) <==> Values(constraints, SprintKey) == [v])
      && tags.assign == Last(Values(constraints, AssignKey)) && tags.other == Free(constraints)
  {
    ReaderIsExact(constraints);
    forall v { ValueInWords(v); }
    forall v, a { AltitudeInWords(v, a); }
    var altitudes := Values(constraints, AltitudeKey);
    assert altitudes != [] && |altitudes| <= 1 ==> altitudes == [altitudes[0]];
    ValuesAreOne(Values(constraints, TrackKey));
    ValuesAreOne(Values(constraints, SprintKey));
  }

  /** The tag of `raw` is refused after `before`: what it says was said, or its value is not one. */
  ghost predicate RefusedTag(before: seq<string>, raw: string, e: TagError) {
    && KeyOf(raw).Some? && KeyOf(raw) != Some(AssignKey)
    && var key, value := KeyOf(raw).value, ValueOf(raw);
       if Values(before, key) != [] then e == Repeated(key)
       else if key == AltitudeKey then e == BadAltitude(value) && value != "epic" && value != "story" && value != "task"
       else e == UnsafeValue(key, value) && !ValueText(value)
  }

  /** The tags have something under the key. */
  predicate Said(tags: Tags, key: TagKey) {
    match key
    case AltitudeKey => tags.altitude.Some?
    case TrackKey => tags.track.Some?
    case SprintKey => tags.sprint.Some?
    case AssignKey => tags.assign.Some?
  }

  lemma SaidInWords(before: seq<string>, key: TagKey)
    requires WellTagged(before)
    ensures Said(MeaningOf(before), key) <==> Values(before, key) != []
  {}

  lemma SetRefused(tags: Tags, key: TagKey, value: string)
    requires SetTag(tags, key, value).Err?
    ensures key != AssignKey
    ensures
      var e := SetTag(tags, key, value).error;
      if Said(tags, key) then e == Repeated(key)
      else if key == AltitudeKey then e == BadAltitude(value) && value != "epic" && value != "story" && value != "task"
      else e == UnsafeValue(key, value) && !ValueText(value)
  {
    ValueInWords(value);
  }

  lemma StepRefused(before: seq<string>, raw: string, tags: Tags)
    requires WellTagged(before) && tags == MeaningOf(before) && ReadOne(tags, raw).Err?
    ensures RefusedTag(before, raw, ReadOne(tags, raw).error)
  {
    SaidInWords(before, KeyOf(raw).value);
    SetRefused(tags, KeyOf(raw).value, ValueOf(raw));
  }

  /** An unreadable list reports its first refused tag: a repeat before a bad value. */
  lemma {:induction false} ErrorInWords(constraints: seq<string>) returns (i: nat)
    requires TagsOf(constraints).Err?
    ensures i < |constraints| && TagsOf(constraints[..i]).Ok?
    ensures RefusedTag(constraints[..i], constraints[i], TagsOf(constraints).error)
  {
    var init := constraints[..|constraints| - 1];
    if TagsOf(init).Err? {
      i := ErrorInWords(init);
      assert init[..i] == constraints[..i];
    } else {
      i := |constraints| - 1;
      ReaderIsExact(init);
      StepRefused(init, constraints[i], MeaningOf(init));
    }
  }

  lemma ValuesAreOne(values: seq<string>)
    ensures |values| <= 1 ==> forall v :: First(values) == Some(v) <==> values == [v]
  {}
}
