/** The canonical printer behind the ratified-profile gate: members sorted by key, undefined members dropped. */
module CanonicalJson {
  import opened Prelude
  import opened Text
  import opened Json

  function Defined(fields: seq<Field>): (r: seq<Field>)
    ensures forall f :: f in r <==> f in fields && f.value.Some?
  {
    if fields == [] then []
    else if fields[0].value.Some? then [fields[0]] + Defined(fields[1..])
    else Defined(fields[1..])
  }

  function Insert(f: Field, sorted: seq<Field>): (r: seq<Field>)
    ensures forall g :: g in r <==> g == f || g in sorted
  {
    if sorted == [] then [f]
    else if Less(f.key, sorted[0].key) then [f] + sorted
    else [sorted[0]] + Insert(f, sorted[1..])
  }

  function SortByKey(fields: seq<Field>): (r: seq<Field>)
    ensures forall f :: f in r <==> f in fields
  {
    if fields == [] then [] else Insert(fields[0], SortByKey(fields[1..]))
  }

  /** Every field is defined and holds a part of `whole`. */
  ghost predicate PartsOf(whole: Json, fields: seq<Field>) {
    forall f :: f in fields ==> f.value.Some? && f.value.value < whole
  }

  /** The members that are printed, in printing order. */
  function Members(v: Json): (r: seq<Field>)
    requires v.JObject?
    ensures PartsOf(v, r)
    ensures forall f :: f in r <==> f in v.fields && f.value.Some?
  {
    SortByKey(Defined(v.fields))
  }

  function Canonical(v: Json): string
    decreases v, 1, 0
  {
    match v
    case JArray(items) => "[" + Body(CanonicalItems(items), ']')
    case JObject(_) => "{" + Body(CanonicalFields(v, Members(v)), '}')
    case _ => Print(v)
  }

  function CanonicalItems(items: seq<Json>): seq<string>
    decreases items, 0, 0
  {
    if items == [] then [] else [Canonical(items[0])] + CanonicalItems(items[1..])
  }

  function CanonicalFields(whole: Json, fields: seq<Field>): seq<string>
    requires PartsOf(whole, fields)
    decreases whole, 0, |fields|
  {
    if fields == [] then []
    else [Quote(fields[0].key) + ":" + Canonical(fields[0].value.value)] + CanonicalFields(whole, fields[1..])
  }

  /** No object in the value names a member twice: what a JavaScript object guarantees. */
  predicate WellFormed(v: Json)
    decreases v
  {
    match v
    case JArray(items) => forall i :: 0 <= i < |items| ==> WellFormed(items[i])
    case JObject(fields) =>
      && DistinctKeys(fields)
      && forall i :: 0 <= i < |fields| && fields[i].value.Some? ==> WellFormed(fields[i].value.value)
    case _ => true
  }

  predicate DistinctKeys(fields: seq<Field>) {
    forall i, j :: 0 <= i < j < |fields| ==> fields[i].key != fields[j].key
  }

  /** Equality as data: the order of members and undefined members do not matter, the order of items does. */
  predicate SameData(v: Json, w: Json)
    decreases v
  {
    match v
    case JArray(items) =>
      w.JArray? && |items| == |w.items| && forall i :: 0 <= i < |items| ==> SameData(items[i], w.items[i])
    case JObject(fields) =>
      && w.JObject?
      && (forall f :: f in fields && f.value.Some? ==> HasSame(w.fields, f))
      && (forall g :: g in w.fields && g.value.Some? ==> HasKey(fields, g.key))
    case _ => v == w
  }

  /** One of `fields` is the same member as `f`. */
  predicate HasSame(fields: seq<Field>, f: Field)
    requires f.value.Some?
    decreases f, 1
  {
    exists g :: g in fields && SameField(f, g)
  }

  predicate HasKey(fields: seq<Field>, k: string) {
    exists f :: f in fields && f.value.Some? && f.key == k
  }

  predicate SameField(f: Field, g: Field)
    requires f.value.Some?
    decreases f, 0
  {
    f.key == g.key && g.value.Some? && SameData(f.value.value, g.value.value)
  }

  // ----- the value a canonical text is the plain print of -----

  function Norm(v: Json): Json
    decreases v, 1, 0
  {
    match v
    case JArray(items) => JArray(NormItems(items))
    case JObject(_) => JObject(NormFields(v, Members(v)))
    case _ => v
  }

  function NormItems(items: seq<Json>): (r: seq<Json>)
    ensures |r| == |items|
    decreases items, 0, 0
  {
    if items == [] then [] else [Norm(items[0])] + NormItems(items[1..])
  }

  function NormFields(whole: Json, fields: seq<Field>): (r: seq<Field>)
    requires PartsOf(whole, fields)
    ensures |r| == |fields|
    decreases whole, 0, |fields|
  {
    if fields == [] then []
    else [Field(fields[0].key, Some(Norm(fields[0].value.value)))] + NormFields(whole, fields[1..])
  }

  lemma {:induction false} CanonicalIsPrintOfNorm(v: Json)
    ensures Canonical(v) == Print(Norm(v)) && Whole(Norm(v))
    decreases v, 1, 0
  {
    match v
    case JArray(items) => ItemsArePrinted(items);
    case JObject(_) => FieldsArePrinted(v, Members(v));
    case _ =>
  }

  lemma {:induction false} ItemsArePrinted(items: seq<Json>)
    ensures CanonicalItems(items) == PrintItems(NormItems(items)) && AllWhole(NormItems(items))
    decreases items, 0, 0
  {
    if items != [] {
      CanonicalIsPrintOfNorm(items[0]);
      ItemsArePrinted(items[1..]);
      assert NormItems(items)[1..] == NormItems(items[1..]);
    }
  }

  lemma {:induction false} FieldsArePrinted(whole: Json, fields: seq<Field>)
    requires PartsOf(whole, fields)
    ensures CanonicalFields(whole, fields) == PrintFields(NormFields(whole, fields))
      && WholeFields(NormFields(whole, fields))
    decreases whole, 0, |fields|
  {
    if fields != [] {
      CanonicalIsPrintOfNorm(fields[0].value.value);
      FieldsArePrinted(whole, fields[1..]);
      assert NormFields(whole, fields)[1..] == NormFields(whole, fields[1..]);
    }
  }

  lemma {:induction false} NormItemAt(items: seq<Json>, i: nat)
    requires i < |items|
    ensures NormItems(items)[i] == Norm(items[i])
  {
    if i > 0 { NormItemAt(items[1..], i - 1); }
  }

  lemma {:induction false} NormFieldAt(whole: Json, fields: seq<Field>, i: nat)
    requires PartsOf(whole, fields) && i < |fields|
    ensures NormFields(whole, fields)[i] == Field(fields[i].key, Some(Norm(fields[i].value.value)))
  {
    if i > 0 { NormFieldAt(whole, fields[1..], i - 1); }
  }

  // ----- sorting -----

  function Keys(fields: seq<Field>): (r: seq<string>)
    ensures |r| == |fields| && forall i :: 0 <= i < |r| ==> r[i] == fields[i].key
  {
    seq(|fields|, i requires 0 <= i < |fields| => fields[i].key)
  }

  lemma AscendingCons(k: string, ks: seq<string>)
    requires Ascending(ks) && forall x :: x in ks ==> Less(k, x)
    ensures Ascending([k] + ks)
  {}

  lemma {:induction false} InsertAscends(f: Field, s: seq<Field>)
    requires Ascending(Keys(s)) && forall g :: g in s ==> g.key != f.key
    ensures Ascending(Keys(Insert(f, s)))
  {
    if s != [] {
      LessTotal(f.key, s[0].key);
      var ks := Keys(s);
      if Less(f.key, s[0].key) {
        forall x | x in ks
          ensures Less(f.key, x)
        {
          if x != ks[0] { LessTransitive(f.key, ks[0], x); }
        }
        AscendingCons(f.key, ks);
        assert Keys(Insert(f, s)) == [f.key] + ks;
      } else {
        assert Keys(s[1..]) == ks[1..];
        InsertAscends(f, s[1..]);
        var rest := Insert(f, s[1..]);
        assert forall g :: g in s[1..] ==> Less(s[0].key, g.key) by {
          forall g | g in s[1..] ensures Less(s[0].key, g.key) {
            var i :| 0 <= i < |s| - 1 && s[1..][i] == g;
            assert Less(ks[0], ks[i + 1]);
          }
        }
        AscendingCons(s[0].key, Keys(rest));
        assert Keys(Insert(f, s)) == [s[0].key] + Keys(rest);
      }
    }
  }

  lemma {:induction false} SortAscends(fields: seq<Field>)
    requires DistinctKeys(fields)
    ensures Ascending(Keys(SortByKey(fields)))
  {
    if fields != [] {
      SortAscends(fields[1..]);
      assert forall g :: g in fields[1..] ==> g.key != fields[0].key;
      InsertAscends(fields[0], SortByKey(fields[1..]));
    }
  }

  lemma {:induction false} DefinedIsDistinct(fields: seq<Field>)
    requires DistinctKeys(fields)
    ensures DistinctKeys(Defined(fields))
  {
    if fields != [] {
      DefinedIsDistinct(fields[1..]);
      assert forall g :: g in Defined(fields[1..]) ==> g.key != fields[0].key;
    }
  }

  /** Members come out strictly ascending by key. */
  lemma MembersAscend(v: Json)
    requires v.JObject? && DistinctKeys(v.fields)
    ensures Ascending(Keys(Members(v)))
  {
    DefinedIsDistinct(v.fields);
    SortAscends(Defined(v.fields));
  }

  // ----- the gate compares data -----

  lemma NormFieldsAgree(v: Json, w: Json, i: nat)
    requires v.JObject? && w.JObject? && Norm(v) == Norm(w) && i < |Members(v)|
    ensures |Members(v)| == |Members(w)| && Members(v)[i].key == Members(w)[i].key
    ensures Norm(Members(v)[i].value.value) == Norm(Members(w)[i].value.value)
  {
    NormFieldAt(v, Members(v), i);
    NormFieldAt(w, Members(w), i);
  }

  lemma {:induction false} NormTellsData(v: Json, w: Json)
    requires Norm(v) == Norm(w)
    ensures SameData(v, w)
    decreases v, 1
  {
    match v
    case JArray(items) =>
      forall i | 0 <= i < |items|
        ensures SameData(items[i], w.items[i])
      {
        NormItemAt(items, i);
        NormItemAt(w.items, i);
        NormTellsData(items[i], w.items[i]);
      }
    case JObject(fields) =>
      forall f | f in fields && f.value.Some?
        ensures HasSame(w.fields, f)
      {
        var i :| 0 <= i < |Members(v)| && Members(v)[i] == f;
        NormFieldsAgree(v, w, i);
        var g := Members(w)[i];
        NormTellsData(f.value.value, g.value.value);
        assert g in Members(w) && SameField(f, g);
      }
      forall g | g in w.fields && g.value.Some?
        ensures HasKey(fields, g.key)
      {
        var i :| 0 <= i < |Members(w)| && Members(w)[i] == g;
        NormFieldsAgree(v, w, i);
        assert Members(v)[i] in Members(v);
      }
    case _ =>
  }

  lemma SameKeys(v: Json, w: Json)
    requires v.JObject? && w.JObject? && DistinctKeys(v.fields) && DistinctKeys(w.fields)
    requires forall f :: f in Members(v) ==> HasKey(Members(w), f.key)
    requires forall g :: g in Members(w) ==> HasKey(Members(v), g.key)
    ensures Keys(Members(v)) == Keys(Members(w))
  {
    MembersAscend(v);
    MembersAscend(w);
    var a, b := Members(v), Members(w);
    KeysCover(a, b);
    KeysCover(b, a);
    AscendingIsUnique(Keys(a), Keys(b));
  }

  lemma KeysCover(a: seq<Field>, b: seq<Field>)
    requires forall f :: f in a ==> HasKey(b, f.key)
    ensures forall k :: k in Keys(a) ==> k in Keys(b)
  {}

  /** In an object without repeated members a key leads to one member only. */
  lemma OneMember(fields: seq<Field>, f: Field, g: Field)
    requires DistinctKeys(fields) && f in fields && g in fields && f.key == g.key
    ensures f == g
  {}

  lemma {:induction false} DataFixesNorm(v: Json, w: Json)
    requires WellFormed(v) && WellFormed(w) && SameData(v, w)
    ensures Norm(v) == Norm(w)
    decreases v, 2
  {
    match v
    case JArray(items) => ItemsAgree(items, w.items);
    case JObject(fields) => MembersAgree(v, w);
    case _ =>
  }

  lemma {:induction false} ItemsAgree(a: seq<Json>, b: seq<Json>)
    requires |a| == |b|
    requires forall i :: 0 <= i < |a| ==> WellFormed(a[i]) && WellFormed(b[i]) && SameData(a[i], b[i])
    ensures NormItems(a) == NormItems(b)
    decreases a
  {
    if a != [] {
      DataFixesNorm(a[0], b[0]);
      ItemsAgree(a[1..], b[1..]);
    }
  }

  lemma {:induction false} MembersAgree(v: Json, w: Json)
    requires v.JObject? && w.JObject? && WellFormed(v) && WellFormed(w) && SameData(v, w)
    ensures Norm(v) == Norm(w)
    decreases v, 1
  {
    var a, b := Members(v), Members(w);
    MembersMatch(v, w);
    forall i | 0 <= i < |a|
      ensures NormFields(v, a)[i] == NormFields(w, b)[i]
    {
      MemberAgrees(v, w, i);
    }
  }

  lemma MembersMatch(v: Json, w: Json)
    requires v.JObject? && w.JObject? && DistinctKeys(v.fields) && DistinctKeys(w.fields) && SameData(v, w)
    ensures |Members(v)| == |Members(w)| && Keys(Members(v)) == Keys(Members(w))
  {
    var a, b := Members(v), Members(w);
    forall f | f in a
      ensures HasKey(b, f.key)
    {
      assert HasSame(w.fields, f);
      var g :| g in w.fields && SameField(f, g);
      assert g in b;
    }
    forall g | g in b
      ensures HasKey(a, g.key)
    {
      assert HasKey(v.fields, g.key);
      var f :| f in v.fields && f.value.Some? && f.key == g.key;
      assert f in a;
    }
    SameKeys(v, w);
    assert |Keys(a)| == |Keys(b)|;
  }

  lemma {:induction false} MemberAgrees(v: Json, w: Json, i: nat)
    requires v.JObject? && w.JObject? && WellFormed(v) && WellFormed(w) && SameData(v, w)
    requires i < |Members(v)| && Keys(Members(v)) == Keys(Members(w)) && |Members(v)| == |Members(w)|
    ensures NormFields(v, Members(v))[i] == NormFields(w, Members(w))[i]
    decreases v, 0
  {
    var f, h := Members(v)[i], Members(w)[i];
    assert Keys(Members(v))[i] == Keys(Members(w))[i];
    assert f in Members(v) && h in Members(w);
    assert HasSame(w.fields, f);
    var g :| g in w.fields && SameField(f, g);
    OneMember(w.fields, g, h);
    PartIsWellFormed(v, f);
    PartIsWellFormed(w, h);
    DataFixesNorm(f.value.value, h.value.value);
    NormFieldAt(v, Members(v), i);
    NormFieldAt(w, Members(w), i);
  }

  lemma PartIsWellFormed(v: Json, f: Field)
    requires v.JObject? && WellFormed(v) && f in v.fields && f.value.Some?
    ensures WellFormed(f.value.value)
  {}

  /** Two values print the same canonical text exactly when they are the same data. */
  lemma CanonicalIsExact(v: Json, w: Json)
    requires WellFormed(v) && WellFormed(w)
    ensures Canonical(v) == Canonical(w) <==> SameData(v, w)
  {
    CanonicalIsPrintOfNorm(v);
    CanonicalIsPrintOfNorm(w);
    if Canonical(v) == Canonical(w) {
      PrintIsUnique(Norm(v), "", Norm(w), "");
      NormTellsData(v, w);
    }
    if SameData(v, w) { DataFixesNorm(v, w); }
  }

  // ----- reading a member -----

  function IntIn(fields: seq<Field>, key: string): Option<int> {
    if fields == [] then None
    else if fields[0].key == key && fields[0].value.Some? && fields[0].value.value.JInt? then
      Some(fields[0].value.value.i)
    else IntIn(fields[1..], key)
  }

  /** The integer a document holds under a key. */
  function IntMember(v: Json, key: string): Option<int> {
    if v.JObject? then IntIn(v.fields, key) else None
  }

  lemma {:induction false} IntIsMember(fields: seq<Field>, key: string, n: int)
    requires DistinctKeys(fields)
    ensures IntIn(fields, key) == Some(n) <==> Field(key, Some(JInt(n))) in fields
  {
    if fields != [] {
      assert fields == [fields[0]] + fields[1..];
      IntIsMember(fields[1..], key, n);
    }
  }

  lemma SameInt(v: Json, n: int)
    ensures SameData(JInt(n), v) || SameData(v, JInt(n)) ==> v == JInt(n)
  {}

  lemma SameMember(v: seq<Field>, w: seq<Field>, key: string, n: int)
    requires DistinctKeys(v) && DistinctKeys(w) && SameData(JObject(v), JObject(w))
    ensures Field(key, Some(JInt(n))) in v <==> Field(key, Some(JInt(n))) in w
  {
    var member := Field(key, Some(JInt(n)));
    if member in v {
      assert HasSame(w, member);
      var g :| g in w && SameField(member, g);
      SameInt(g.value.value, n);
    }
    if member in w {
      assert HasKey(v, key);
      var f :| f in v && f.value.Some? && f.key == key;
      assert HasSame(w, f);
      var g :| g in w && SameField(f, g);
      assert g == member;
      SameInt(f.value.value, n);
    }
  }

  /** Documents that are the same as data hold the same integer under every key. */
  lemma SameIntMember(v: Json, w: Json, key: string)
    requires WellFormed(v) && WellFormed(w) && SameData(v, w)
    ensures IntMember(v, key) == IntMember(w, key)
  {
    if v.JObject? {
      forall n
        ensures IntIn(v.fields, key) == Some(n) <==> IntIn(w.fields, key) == Some(n)
      {
        SameMember(v.fields, w.fields, key, n);
        IntIsMember(v.fields, key, n);
        IntIsMember(w.fields, key, n);
      }
      assert IntIn(v.fields, key).Some? ==> IntIn(w.fields, key) == Some(IntIn(v.fields, key).value);
    }
  }
}
