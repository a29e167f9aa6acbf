/** JSON values, their compact printing, and the fact that a printed value can be read back in one way only. */
module Json {
  import opened Prelude
  import opened Text

  /** Numbers are the integers; a field without a value is an undefined member, which printing drops. */
  datatype Json =
    | JNull
    | JBool(b: bool)
    | JInt(i: int)
    | JString(s: string)
    | JArray(items: seq<Json>)
    | JObject(fields: seq<Field>)

  datatype Field = Field(key: string, value: Option<Json>)

  function HexDigit(d: nat): char
    requires d < 16
  {
    if d < 10 then ('0' as int + d) as char else ('a' as int + d - 10) as char
  }

  /** One character inside a JSON string (section 7 of RFC 8259), with the short escapes where they exist. */
  function EscapeChar(c: char): string {
    if c == '"' then "\\\""
    else if c == '\\' then "\\\\"
    else if c == '\U{0008}' then "\\b"
    else if c == '\U{000c}' then "\\f"
    else if c == '\n' then "\\n"
    else if c == '\r' then "\\r"
    else if c == '\t' then "\\t"
    else if c < ' ' then "\\u00" + [HexDigit(c as int / 16), HexDigit(c as int % 16)]
    else [c]
  }

  function Escaped(s: string): string {
    if s == "" then "" else EscapeChar(s[0]) + Escaped(s[1..])
  }

  function Quote(s: string): string {
    "\"" + Escaped(s) + "\""
  }

  function PrintInt(i: int): string {
    if i < 0 then "-" + Decimal(-i) else Decimal(i)
  }

  /** The items of a list, separated by commas, and its closing bracket. */
  function Body(texts: seq<string>, close: char): string {
    Join(texts, ",") + [close]
  }

  /** `JSON.stringify` without indentation. */
  function Print(v: Json): string
    decreases v, 1
  {
    match v
    case JNull => "null"
    case JBool(b) => if b then "true" else "false"
    case JInt(i) => PrintInt(i)
    case JString(s) => Quote(s)
    case JArray(items) => "[" + Body(PrintItems(items), ']')
    case JObject(fields) => "{" + Body(PrintFields(fields), '}')
  }

  function PrintItems(items: seq<Json>): (r: seq<string>)
    ensures |r| == |items|
    decreases items, 0
  {
    if items == [] then [] else [Print(items[0])] + PrintItems(items[1..])
  }

  function PrintFields(fields: seq<Field>): seq<string>
    decreases fields, 0
  {
    if fields == [] then []
    else if fields[0].value.None? then PrintFields(fields[1..])
    else [Quote(fields[0].key) + ":" + Print(fields[0].value.value)] + PrintFields(fields[1..])
  }

  // ----- unique reading -----

  lemma EscapeIsPrefixFree(c: char, x: string, d: char, y: string)
    requires EscapeChar(c) + x == EscapeChar(d) + y
    ensures c == d && x == y
  {
    var l, r := EscapeChar(c) + x, EscapeChar(d) + y;
    assert l[0] == r[0];
    if EscapeChar(c)[0] == '\\' {
      assert l[1] == r[1];
      assert l[1] == EscapeChar(c)[1] && r[1] == EscapeChar(d)[1];
      if EscapeChar(c)[1] == 'u' {
        assert l[4] == r[4] && l[5] == r[5];
        assert l[4] == EscapeChar(c)[4] && l[5] == EscapeChar(c)[5] && r[4] == EscapeChar(d)[4]
          && r[5] == EscapeChar(d)[5];
      }
    }
    assert c == d;
    assert l[|EscapeChar(c)|..] == x && r[|EscapeChar(d)|..] == y;
  }

  /** The text after an opening quote: it ends at once exactly when the string is empty. */
  function AfterQuote(a: string, x: string): string {
    Escaped(a) + "\"" + x
  }

  lemma AfterQuoteHead(a: string, x: string)
    ensures AfterQuote(a, x)[0] == '"' <==> a == ""
    ensures a == "" ==> AfterQuote(a, x)[1..] == x
    ensures a != "" ==> AfterQuote(a, x) == EscapeChar(a[0]) + AfterQuote(a[1..], x)
  {}

  /** A quoted string ends where it ends: what follows cannot be mistaken for more of it. */
  lemma {:induction false} EscapedIsUnique(a: string, x: string, b: string, y: string)
    requires AfterQuote(a, x) == AfterQuote(b, y)
    ensures a == b && x == y
  {
    AfterQuoteHead(a, x);
    AfterQuoteHead(b, y);
    if a != "" && b != "" {
      EscapeIsPrefixFree(a[0], AfterQuote(a[1..], x), b[0], AfterQuote(b[1..], y));
      EscapedIsUnique(a[1..], x, b[1..], y);
      assert a == [a[0]] + a[1..] && b == [b[0]] + b[1..];
    }
  }

  lemma QuoteIsUnique(a: string, x: string, b: string, y: string)
    requires Quote(a) + x == Quote(b) + y
    ensures a == b && x == y
  {
    assert (Quote(a) + x)[1..] == AfterQuote(a, x);
    assert (Quote(b) + y)[1..] == AfterQuote(b, y);
    EscapedIsUnique(a, x, b, y);
  }

  /** What may follow a value inside a document: nothing, a comma or a closing bracket. */
  predicate Stops(x: string) {
    x == "" || x[0] in ",]}"
  }

  lemma {:induction false} DigitsAreUnique(a: string, x: string, b: string, y: string)
    requires AllDigits(a) && AllDigits(b) && Stops(x) && Stops(y)
    requires a + x == b + y
    ensures a == b && x == y
  {
    assert if a == "" then a + x == x else (a + x)[0] == a[0] && (a + x)[1..] == a[1..] + x;
    assert if b == "" then b + y == y else (b + y)[0] == b[0] && (b + y)[1..] == b[1..] + y;
    if a != "" && b != "" {
      DigitsAreUnique(a[1..], x, b[1..], y);
      assert a == [a[0]] + a[1..] && b == [b[0]] + b[1..];
    }
  }

  lemma PrintIntShape(i: int, x: string)
    ensures (PrintInt(i) + x)[0] == '-' <==> i < 0
    ensures i < 0 ==> (PrintInt(i) + x)[1..] == Decimal(-i) + x
    ensures i >= 0 ==> PrintInt(i) + x == Decimal(i) + x
    ensures IsDigit((PrintInt(i) + x)[0]) || (PrintInt(i) + x)[0] == '-'
  {}

  lemma IntIsUnique(i: int, x: string, j: int, y: string)
    requires Stops(x) && Stops(y) && PrintInt(i) + x == PrintInt(j) + y
    ensures i == j && x == y
  {
    PrintIntShape(i, x);
    PrintIntShape(j, y);
    var m, n := if i < 0 then -i else i, if j < 0 then -j else j;
    DigitsAreUnique(Decimal(m), x, Decimal(n), y);
    DecimalInjective(m, n);
  }

  /** Every member of every object in it is defined: what a text can hold. */
  predicate Whole(v: Json)
    decreases v, 1
  {
    match v
    case JArray(items) => AllWhole(items)
    case JObject(fields) => WholeFields(fields)
    case _ => true
  }

  predicate AllWhole(items: seq<Json>)
    decreases items, 0
  {
    items != [] ==> Whole(items[0]) && AllWhole(items[1..])
  }

  predicate WholeFields(fields: seq<Field>)
    decreases fields, 0
  {
    fields != [] ==> fields[0].value.Some? && Whole(fields[0].value.value) && WholeFields(fields[1..])
  }

  /** What is left of a bracketed list's text once an item has been read. */
  function Tail(texts: seq<string>, close: char): string {
    if texts == [] then [close] else "," + texts[0] + Tail(texts[1..], close)
  }

  lemma Regroup(a: string, b: string, c: string, x: string)
    ensures (a + b + c) + x == a + (b + (c + x))
  {}

  lemma TailText(texts: seq<string>, close: char, x: string)
    ensures texts == [] ==> Tail(texts, close) + x == [close] + x
    ensures texts != [] ==> Tail(texts, close) + x == "," + (texts[0] + (Tail(texts[1..], close) + x))
    ensures (Tail(texts, close) + x)[0] == if texts == [] then close else ','
  {}

  lemma {:induction false} BodyText(texts: seq<string>, close: char, x: string)
    ensures texts == [] ==> Body(texts, close) + x == [close] + x
    ensures texts != [] ==> Body(texts, close) + x == texts[0] + (Tail(texts[1..], close) + x)
  {
    if |texts| == 1 {
      assert Tail(texts[1..], close) == [close];
    } else if |texts| > 1 {
      BodyText(texts[1..], close, x);
      TailText(texts[1..], close, x);
      var rest := Join(texts[1..], ",");
      Regroup(texts[0], ",", rest, [close] + x);
      assert Body(texts, close) + x == (texts[0] + "," + rest) + ([close] + x);
      assert Body(texts[1..], close) + x == rest + ([close] + x);
    }
  }

  datatype Kind = KNull | KTrue | KFalse | KInt | KString | KArray | KObject | KNone

  function KindOf(v: Json): Kind {
    match v
    case JNull => KNull
    case JBool(b) => if b then KTrue else KFalse
    case JInt(_) => KInt
    case JString(_) => KString
    case JArray(_) => KArray
    case JObject(_) => KObject
  }

  function KindAt(c: char): Kind {
    if c == 'n' then KNull
    else if c == 't' then KTrue
    else if c == 'f' then KFalse
    else if c == '"' then KString
    else if c == '[' then KArray
    else if c == '{' then KObject
    else if c == '-' || IsDigit(c) then KInt
    else KNone
  }

  /** The first character of a printed value tells its kind. */
  lemma HeadTellsKind(v: Json, x: string)
    ensures Print(v) != "" && KindAt((Print(v) + x)[0]) == KindOf(v) != KNone
  {}

  /** Two texts that both start with a printed value start with the same value. */
  lemma {:induction false} PrintIsUnique(v: Json, x: string, w: Json, y: string)
    requires Whole(v) && Whole(w) && Stops(x) && Stops(y)
    requires Print(v) + x == Print(w) + y
    ensures v == w && x == y
    decreases v, 1
  {
    HeadTellsKind(v, x);
    HeadTellsKind(w, y);
    match v
    case JNull => SameLiteral("null", x, y);
    case JBool(b) => SameLiteral(Print(v), x, y);
    case JInt(i) => IntIsUnique(i, x, w.i, y);
    case JString(s) => QuoteIsUnique(s, x, w.s, y);
    case JArray(items) =>
      Bracketed('[', Body(PrintItems(items), ']'), x, Body(PrintItems(w.items), ']'), y);
      ArrayIsUnique(items, x, w.items, y);
    case JObject(fields) =>
      Bracketed('{', Body(PrintFields(fields), '}'), x, Body(PrintFields(w.fields), '}'), y);
      ObjectIsUnique(fields, x, w.fields, y);
  }

  lemma SameLiteral(l: string, x: string, y: string)
    requires l + x == l + y
    ensures x == y
  {
    assert (l + x)[|l|..] == x && (l + y)[|l|..] == y;
  }

  lemma Bracketed(open: char, s: string, x: string, t: string, y: string)
    requires ([open] + s) + x == ([open] + t) + y
    ensures s + x == t + y
  {
    assert (([open] + s) + x)[1..] == s + x && (([open] + t) + y)[1..] == t + y;
  }

  lemma ItemsHead(items: seq<Json>, x: string)
    requires items != []
    ensures PrintItems(items)[0] == Print(items[0]) && PrintItems(items)[1..] == PrintItems(items[1..])
    ensures KindAt((PrintItems(items)[0] + x)[0]) != KNone
  {}

  lemma FieldsHead(fields: seq<Field>)
    requires fields != [] && fields[0].value.Some?
    ensures PrintFields(fields) != [] && PrintFields(fields)[1..] == PrintFields(fields[1..])
    ensures PrintFields(fields)[0] == Quote(fields[0].key) + ":" + Print(fields[0].value.value)
    ensures PrintFields(fields)[0] != "" && PrintFields(fields)[0][0] == '"'
  {}

  /** An array's text goes on with the closing bracket exactly when the array is empty. */
  lemma BodyStart(items: seq<Json>, x: string)
    ensures var text := Body(PrintItems(items), ']') + x; text != "" && (text[0] == ']' <==> items == [])
  {
    var texts := PrintItems(items);
    BodyText(texts, ']', x);
    if items != [] { ItemsHead(items, Tail(texts[1..], ']') + x); }
  }

  lemma {:induction false} ArrayIsUnique(a: seq<Json>, x: string, b: seq<Json>, y: string)
    requires AllWhole(a) && AllWhole(b) && Stops(x) && Stops(y)
    requires Body(PrintItems(a), ']') + x == Body(PrintItems(b), ']') + y
    ensures a == b && x == y
    decreases a, 1
  {
    var s, t := PrintItems(a), PrintItems(b);
    BodyText(s, ']', x);
    BodyText(t, ']', y);
    BodyStart(a, x);
    BodyStart(b, y);
    if a == [] {
      SameLiteral("]", x, y);
    } else {
      ItemsAreUnique(a, x, b, y);
    }
  }

  lemma {:induction false} ItemsAreUnique(a: seq<Json>, x: string, b: seq<Json>, y: string)
    requires a != [] && b != [] && AllWhole(a) && AllWhole(b) && Stops(x) && Stops(y)
    requires Print(a[0]) + (Tail(PrintItems(a[1..]), ']') + x) == Print(b[0]) + (Tail(PrintItems(b[1..]), ']') + y)
    ensures a == b && x == y
    decreases a, 0
  {
    var s, t := PrintItems(a[1..]), PrintItems(b[1..]);
    TailText(s, ']', x);
    TailText(t, ']', y);
    PrintIsUnique(a[0], Tail(s, ']') + x, b[0], Tail(t, ']') + y);
    if a[1..] == [] {
      SameLiteral("]", x, y);
    } else {
      ItemsHead(a[1..], "");
      ItemsHead(b[1..], "");
      SameLiteral(",", s[0] + (Tail(s[1..], ']') + x), t[0] + (Tail(t[1..], ']') + y));
      ItemsAreUnique(a[1..], x, b[1..], y);
    }
    assert a == [a[0]] + a[1..] && b == [b[0]] + b[1..];
  }

  lemma {:induction false} ObjectIsUnique(a: seq<Field>, x: string, b: seq<Field>, y: string)
    requires WholeFields(a) && WholeFields(b) && Stops(x) && Stops(y)
    requires Body(PrintFields(a), '}') + x == Body(PrintFields(b), '}') + y
    ensures a == b && x == y
    decreases a, 1
  {
    var s, t := PrintFields(a), PrintFields(b);
    BodyText(s, '}', x);
    BodyText(t, '}', y);
    if a != [] { FieldsHead(a); }
    if b != [] { FieldsHead(b); }
    assert (Body(s, '}') + x)[0] == (if a == [] then '}' else '"')
      && (Body(t, '}') + y)[0] == (if b == [] then '}' else '"');
    if a == [] {
      SameLiteral("}", x, y);
    } else {
      FieldsAreUnique(a, x, b, y);
    }
  }

  lemma {:induction false} FieldsAreUnique(a: seq<Field>, x: string, b: seq<Field>, y: string)
    requires a != [] && b != [] && WholeFields(a) && WholeFields(b) && Stops(x) && Stops(y)
    requires (Quote(a[0].key) + ":" + Print(a[0].value.value)) + (Tail(PrintFields(a[1..]), '}') + x)
          == (Quote(b[0].key) + ":" + Print(b[0].value.value)) + (Tail(PrintFields(b[1..]), '}') + y)
    ensures a == b && x == y
    decreases a, 0
  {
    var s, t := PrintFields(a[1..]), PrintFields(b[1..]);
    TailText(s, '}', x);
    TailText(t, '}', y);
    FieldIsUnique(a[0], Tail(s, '}') + x, b[0], Tail(t, '}') + y);
    if a[1..] != [] { FieldsHead(a[1..]); }
    if b[1..] != [] { FieldsHead(b[1..]); }
    if a[1..] == [] {
      SameLiteral("}", x, y);
    } else {
      SameLiteral(",", s[0] + (Tail(s[1..], '}') + x), t[0] + (Tail(t[1..], '}') + y));
      FieldsAreUnique(a[1..], x, b[1..], y);
    }
    assert a == [a[0]] + a[1..] && b == [b[0]] + b[1..];
  }

  lemma {:induction false} FieldIsUnique(f: Field, x: string, g: Field, y: string)
    requires f.value.Some? && g.value.Some? && Whole(f.value.value) && Whole(g.value.value) && Stops(x) && Stops(y)
    requires (Quote(f.key) + ":" + Print(f.value.value)) + x == (Quote(g.key) + ":" + Print(g.value.value)) + y
    ensures f == g && x == y
    decreases f, 1
  {
    var p, q := Print(f.value.value), Print(g.value.value);
    Regroup(Quote(f.key), ":", p, x);
    Regroup(Quote(g.key), ":", q, y);
    QuoteIsUnique(f.key, ":" + (p + x), g.key, ":" + (q + y));
    SameLiteral(":", p + x, q + y);
    PrintIsUnique(f.value.value, x, g.value.value, y);
  }

  // ----- the texts of RFC 8259 -----

  /** The value of a hexadecimal digit; None for any other character. */
  function HexValue(c: char): Option<nat> {
    if '0' <= c <= '9' then Some(c as int - '0' as int)
    else if 'a' <= c <= 'f' then Some(c as int - 'a' as int + 10)
    else if 'A' <= c <= 'F' then Some(c as int - 'A' as int + 10)
    else None
  }

  /** A text that stands for one character inside a string (section 7). */
  predicate SpellsChar(t: string, c: char) {
    || (t == [c] && c >= ' ' && c != '"' && c != '\\')
    || (|t| == 2 && t[0] == '\\'
        && ((t[1] == '"' && c == '"') || (t[1] == '\\' && c == '\\') || (t[1] == '/' && c == '/')
            || (t[1] == 'b' && c == '\U{0008}') || (t[1] == 'f' && c == '\U{000c}') || (t[1] == 'n' && c == '\n')
            || (t[1] == 'r' && c == '\r') || (t[1] == 't' && c == '\t')))
    || (|t| == 6 && t[0] == '\\' && t[1] == 'u'
        && HexValue(t[2]).Some? && HexValue(t[3]).Some? && HexValue(t[4]).Some? && HexValue(t[5]).Some?
        && c as int == ((HexValue(t[2]).value * 16 + HexValue(t[3]).value) * 16 + HexValue(t[4]).value) * 16
                       + HexValue(t[5]).value)
  }

  predicate UpperHex(c: char) { 'A' <= c <= 'F' }

  lemma HexDigitIsValue(h: char, d: nat)
    requires d < 16 && HexValue(h) == Some(d)
    ensures h == HexDigit(d) || UpperHex(h)
  {}

  /** A character is printed as the shortest text that stands for it, with hexadecimal digits in lower case. */
  lemma EscapeIsShortest(c: char, t: string)
    requires SpellsChar(t, c) && |t| <= |EscapeChar(c)|
    ensures t == EscapeChar(c) || (|t| == |EscapeChar(c)| == 6 && exists i :: 2 <= i < 6 && UpperHex(t[i]))
  {
    if |t| == 6 {
      var a, b := HexValue(t[2]).value, HexValue(t[3]).value;
      assert a == 0 && b == 0;
      HexDigitIsValue(t[4], c as int / 16);
      HexDigitIsValue(t[5], c as int % 16);
      if !UpperHex(t[4]) && !UpperHex(t[5]) { assert t == EscapeChar(c); }
    }
  }

  /** A text that stands for a run of characters inside a string. */
  ghost predicate SpellsChars(t: string, s: string)
    decreases |s|
  {
    if s == "" then t == ""
    else exists k: nat :: SplitsAt(t, k) && SpellsChar(t[..k], s[0]) && SpellsChars(t[k..], s[1..])
  }

  predicate SplitsAt(t: string, k: nat) { k <= |t| }

  /** A sign, if negative, and the decimal digits (section 6). */
  predicate SpellsInt(t: string, i: int) {
    if i < 0 then |t| > 1 && t[0] == '-' && AllDigits(t[1..]) && t[1] != '0' && Value(t[1..]) == -i
    else t != "" && AllDigits(t) && (|t| > 1 ==> t[0] != '0') && Value(t) == i
  }

  /** A text that stands for a value, without white space (sections 3 to 7). */
  ghost predicate Denotes(t: string, v: Json)
    decreases v, 1
  {
    match v
    case JNull => t == "null"
    case JBool(b) => t == if b then "true" else "false"
    case JInt(i) => SpellsInt(t, i)
    case JString(s) => |t| >= 2 && t[0] == '"' && t[|t| - 1] == '"' && SpellsChars(t[1..|t| - 1], s)
    case JArray(items) =>
      exists texts: seq<string> :: t == "[" + Join(texts, ",") + "]" && DenoteItems(texts, items)
    case JObject(fields) =>
      exists texts: seq<string> :: t == "{" + Join(texts, ",") + "}" && DenoteFields(texts, fields)
  }

  ghost predicate DenoteItems(texts: seq<string>, items: seq<Json>)
    decreases items, 0
  {
    if items == [] then texts == []
    else texts != [] && Denotes(texts[0], items[0]) && DenoteItems(texts[1..], items[1..])
  }

  /** One text a member: its key as a string, a colon, its value. A member without a value has none. */
  ghost predicate DenoteFields(texts: seq<string>, fields: seq<Field>)
    decreases fields, 0
  {
    if fields == [] then texts == []
    else if fields[0].value.None? then DenoteFields(texts, fields[1..])
    else
      && texts != [] && DenoteFields(texts[1..], fields[1..])
      && exists key: string, value: string ::
           texts[0] == "\"" + key + "\":" + value && SpellsChars(key, fields[0].key)
           && Denotes(value, fields[0].value.value)
  }

  lemma HexReadsBack(d: nat)
    requires d < 16
    ensures HexValue(HexDigit(d)) == Some(d)
  {}

  lemma EscapeSpells(c: char)
    ensures SpellsChar(EscapeChar(c), c)
  {
    if c < ' ' {
      HexReadsBack(c as int / 16);
      HexReadsBack(c as int % 16);
      HexReadsBack(0);
    }
  }

  lemma {:induction false} EscapedSpells(s: string)
    ensures SpellsChars(Escaped(s), s)
  {
    if s != "" {
      EscapeSpells(s[0]);
      EscapedSpells(s[1..]);
      SpellsFront(EscapeChar(s[0]), Escaped(s[1..]), s);
    }
  }

  lemma SpellsFront(head: string, rest: string, s: string)
    requires s != "" && SpellsChar(head, s[0]) && SpellsChars(rest, s[1..])
    ensures SpellsChars(head + rest, s)
  {
    var t, k := head + rest, |head|;
    assert t[..k] == head && t[k..] == rest && SplitsAt(t, k);
  }

  lemma {:induction false} NoLeadingZero(n: nat)
    ensures n > 0 ==> Decimal(n)[0] != '0'
  {
    if n >= 10 { NoLeadingZero(n / 10); }
  }

  lemma IntSpells(i: int)
    ensures SpellsInt(PrintInt(i), i)
  {
    var n := if i < 0 then -i else i;
    NoLeadingZero(n);
    ValueOfDecimal(n);
    assert i < 0 ==> PrintInt(i)[1..] == Decimal(n);
  }

  lemma StringDenotes(s: string)
    ensures Denotes(Quote(s), JString(s))
  {
    EscapedSpells(s);
    assert Quote(s)[1..|Quote(s)| - 1] == Escaped(s);
  }

  /**
   * Every printed value is a text of RFC 8259 that stands for that value; reading it back is unique by `PrintIsUnique`.
   */
  lemma {:induction false} PrintDenotes(v: Json)
    ensures Denotes(Print(v), v)
    decreases v, 1
  {
    match v
    case JNull =>
    case JBool(_) =>
    case JInt(i) => IntSpells(i);
    case JString(s) => StringDenotes(s);
    case JArray(items) =>
      ItemsDenote(items);
      assert Print(v) == "[" + Join(PrintItems(items), ",") + "]";
    case JObject(fields) =>
      FieldsDenote(fields);
      assert Print(v) == "{" + Join(PrintFields(fields), ",") + "}";
  }

  lemma {:induction false} ItemsDenote(items: seq<Json>)
    ensures DenoteItems(PrintItems(items), items)
    decreases items, 0
  {
    if items != [] {
      PrintDenotes(items[0]);
      ItemsDenote(items[1..]);
      assert PrintItems(items)[1..] == PrintItems(items[1..]);
    }
  }

  lemma {:induction false} FieldsDenote(fields: seq<Field>)
    ensures DenoteFields(PrintFields(fields), fields)
    decreases fields, 0
  {
    if fields != [] {
      FieldsDenote(fields[1..]);
      if fields[0].value.Some? {
        PrintDenotes(fields[0].value.value);
        EscapedSpells(fields[0].key);
        FieldDenotes(fields);
      }
    }
  }

  lemma FieldDenotes(fields: seq<Field>)
    requires fields != [] && fields[0].value.Some? && DenoteFields(PrintFields(fields[1..]), fields[1..])
    requires Denotes(Print(fields[0].value.value), fields[0].value.value)
    requires SpellsChars(Escaped(fields[0].key), fields[0].key)
    ensures DenoteFields(PrintFields(fields), fields)
  {
    var key, value := Escaped(fields[0].key), Print(fields[0].value.value);
    FieldsHead(fields);
    MemberText(key, value);
    SpelledMember(PrintFields(fields), fields, key, value);
  }

  lemma MemberText(key: string, value: string)
    ensures "\"" + key + "\"" + ":" + value == "\"" + key + "\":" + value
  {}

  lemma SpelledMember(texts: seq<string>, fields: seq<Field>, key: string, value: string)
    requires fields != [] && fields[0].value.Some? && texts != [] && DenoteFields(texts[1..], fields[1..])
    requires texts[0] == "\"" + key + "\":" + value
    requires SpellsChars(key, fields[0].key) && Denotes(value, fields[0].value.value)
    ensures DenoteFields(texts, fields)
  {}
}
