/** The string-aware scanner that cuts the first JSON array out of a model's answer. */
module JsonArrayScan {
  import opened Prelude
  import opened Text
  import opened Fence
  import opened Json

  datatype ScanError = NoArray | Unterminated

  // ----- what the scanner takes for a bracketed text -----

  /** Inside brackets: any character that is neither bracket nor quote, a quoted text, or a nested bracketed text. */
  datatype Piece = Plain(c: char) | Quoted(chars: seq<QuotedChar>) | Nested(pieces: seq<Piece>)

  datatype QuotedChar = Char(c: char) | Escape(c: char)

  predicate ProperChar(q: QuotedChar) {
    q.Char? ==> q.c != '"' && q.c != '\\'
  }

  predicate Proper(ps: seq<Piece>) {
    forall i :: 0 <= i < |ps| ==> ProperPiece(ps[i])
  }

  predicate ProperPiece(p: Piece) {
    match p
    case Plain(c) => c !in "\"[]"
    case Quoted(chars) => forall i :: 0 <= i < |chars| ==> ProperChar(chars[i])
    case Nested(pieces) => Proper(pieces)
  }

  function CharText(q: QuotedChar): string {
    if q.Char? then [q.c] else ['\\', q.c]
  }

  function CharsText(chars: seq<QuotedChar>): string {
    if chars == [] then "" else CharText(chars[0]) + CharsText(chars[1..])
  }

  function PieceText(p: Piece): string
    decreases p, 1
  {
    match p
    case Plain(c) => [c]
    case Quoted(chars) => "\"" + CharsText(chars) + "\""
    case Nested(pieces) => "[" + PiecesText(pieces) + "]"
  }

  function PiecesText(ps: seq<Piece>): string
    decreases ps, 0
  {
    if ps == [] then "" else PieceText(ps[0]) + PiecesText(ps[1..])
  }

  /** A text whose brackets outside quoted parts match up, from an opening bracket to its own closing one. */
  ghost predicate IsBracketed(t: string) {
    exists ps :: Proper(ps) && t == "[" + PiecesText(ps) + "]"
  }

  // ----- the scanner -----

  datatype Mode = Outside | InString | Escaping

  /** How many characters are read until the depth returns to zero. */
  function Scan(s: string, depth: nat, mode: Mode): (r: Option<nat>)
    ensures r.Some? ==> r.value <= |s|
  {
    if s == "" then None
    else match mode
      case Escaping => OneMore(Scan(s[1..], depth, InString))
      case InString =>
        OneMore(Scan(s[1..], depth, if s[0] == '\\' then Escaping else if s[0] == '"' then Outside else InString))
      case Outside =>
        if s[0] == '"' then OneMore(Scan(s[1..], depth, InString))
        else if s[0] == '[' then OneMore(Scan(s[1..], depth + 1, Outside))
        else if s[0] == ']' && depth == 1 then Some(1)
        else if s[0] == ']' && depth > 1 then OneMore(Scan(s[1..], depth - 1, Outside))
        else OneMore(Scan(s[1..], depth, Outside))
  }

  function OneMore(r: Option<nat>): Option<nat> {
    if r.Some? then Some(r.value + 1) else None
  }

  function Extraction(candidate: string): Result<string, ScanError> {
    match IndexOf(candidate, '[')
    case None => Err(NoArray)
    case Some(start) =>
      match Scan(candidate[start..], 0, Outside)
      case None => Err(Unterminated)
      case Some(n) => Ok(candidate[start..start + n])
  }

  function ModeOf(inString: bool, escaped: bool): Mode {
    if escaped then Escaping else if inString then InString else Outside
  }

  lemma NextSuffix(s: string, i: nat)
    requires i < |s|
    ensures s[i..][0] == s[i] && s[i..][1..] == s[i + 1..]
  {}

  method ExtractJsonArray(raw: string) returns (r: Result<string, ScanError>)
    ensures r == Extraction(Candidate(raw))
  {
    var candidate := Candidate(raw);
    var first := IndexOf(candidate, '[');
    if first.None? { return Err(NoArray); }
    var start := first.value;
    var depth, inString, escaped := 0, false, false;
    ghost var whole := Scan(candidate[start..], 0, Outside);
    var i := start;
    while i < |candidate|
      invariant start <= i <= |candidate| && depth >= 0
      invariant if i == start then depth == 0 && !inString && !escaped else depth > 0
      invariant escaped ==> inString
      invariant whole == var rest := Scan(candidate[i..], depth, ModeOf(inString, escaped));
                         if rest.Some? then Some(rest.value + i - start) else None
    {
      var ch := candidate[i];
      NextSuffix(candidate, i);
      if escaped {
        escaped := false;
      } else if inString {
        if ch == '\\' {
          escaped := true;
        } else if ch == '"' {
          inString := false;
        }
      } else if ch == '"' {
        inString := true;
      } else if ch == '[' {
        depth := depth + 1;
      } else if ch == ']' {
        depth := depth - 1;
        if depth == 0 { return Ok(candidate[start..i + 1]); }
      }
      i := i + 1;
    }
    r := Err(Unterminated);
  }

  // ----- the scanner reads every bracketed text to its end -----

  predicate ReadsOver(text: string, rest: string, depth: nat, mode: Mode, after: Mode) {
    Scan(text + rest, depth, mode) == Plus(|text|, Scan(rest, depth, after))
  }

  function Plus(n: nat, r: Option<nat>): Option<nat> {
    if r.Some? then Some(r.value + n) else None
  }

  lemma ScanChar(q: QuotedChar, rest: string, depth: nat)
    requires ProperChar(q)
    ensures ReadsOver(CharText(q), rest, depth, InString, InString)
  {}

  /** Two readings in a row. */
  lemma ReadsOverBoth(s: string, t: string, rest: string, depth: nat, a: Mode, b: Mode, c: Mode)
    requires ReadsOver(s, t + rest, depth, a, b) && ReadsOver(t, rest, depth, b, c)
    ensures ReadsOver(s + t, rest, depth, a, c)
  {
    assert s + (t + rest) == (s + t) + rest;
  }

  lemma {:induction false} ScanChars(chars: seq<QuotedChar>, rest: string, depth: nat)
    requires forall i :: 0 <= i < |chars| ==> ProperChar(chars[i])
    ensures ReadsOver(CharsText(chars), rest, depth, InString, InString)
  {
    if chars == [] {
      assert "" + rest == rest;
    } else {
      ScanChars(chars[1..], rest, depth);
      ScanChar(chars[0], CharsText(chars[1..]) + rest, depth);
      ReadsOverBoth(CharText(chars[0]), CharsText(chars[1..]), rest, depth, InString, InString, InString);
    }
  }

  lemma {:induction false} ScanPieces(ps: seq<Piece>, rest: string, depth: nat)
    requires Proper(ps) && depth > 0
    ensures ReadsOver(PiecesText(ps), rest, depth, Outside, Outside)
    decreases ps, 0
  {
    if ps == [] {
      assert "" + rest == rest;
    } else {
      ScanPieces(ps[1..], rest, depth);
      ScanPiece(ps[0], PiecesText(ps[1..]) + rest, depth);
      ReadsOverBoth(PieceText(ps[0]), PiecesText(ps[1..]), rest, depth, Outside, Outside, Outside);
    }
  }

  lemma {:induction false} ScanPiece(p: Piece, rest: string, depth: nat)
    requires ProperPiece(p) && depth > 0
    ensures ReadsOver(PieceText(p), rest, depth, Outside, Outside)
    decreases p, 1
  {
    match p
    case Plain(c) =>
      assert ([c] + rest)[1..] == rest;
    case Quoted(chars) =>
      ScanChars(chars, "\"" + rest, depth);
      Enclosed('"', CharsText(chars), '"', rest);
    case Nested(pieces) =>
      ScanPieces(pieces, "]" + rest, depth + 1);
      Enclosed('[', PiecesText(pieces), ']', rest);
  }

  lemma Enclosed(open: char, inner: string, close: char, rest: string)
    ensures ([open] + inner + [close]) + rest == [open] + (inner + ([close] + rest))
    ensures ([open] + (inner + ([close] + rest)))[1..] == inner + ([close] + rest)
    ensures ([close] + rest)[1..] == rest
  {}

  /** The scan that starts at an opening bracket stops exactly behind its closing one. */
  lemma ScanBracketed(ps: seq<Piece>, rest: string)
    requires Proper(ps)
    ensures Scan(("[" + PiecesText(ps) + "]") + rest, 0, Outside) == Some(|PiecesText(ps)| + 2)
  {
    ScanPieces(ps, "]" + rest, 1);
    Enclosed('[', PiecesText(ps), ']', rest);
  }

  // ----- and what it returns is always one -----

  /** The texts of the levels still open, innermost first, each with its closing bracket. */
  function LayersText(layers: seq<seq<Piece>>): string {
    if layers == [] then "" else PiecesText(layers[0]) + "]" + LayersText(layers[1..])
  }

  predicate ProperLayers(layers: seq<seq<Piece>>) {
    forall i :: 0 <= i < |layers| ==> Proper(layers[i])
  }

  function Prepend(p: Piece, layers: seq<seq<Piece>>): seq<seq<Piece>>
    requires layers != []
  {
    [[p] + layers[0]] + layers[1..]
  }

  lemma PrependText(p: Piece, layers: seq<seq<Piece>>)
    requires layers != [] && ProperPiece(p) && ProperLayers(layers)
    ensures LayersText(Prepend(p, layers)) == PieceText(p) + LayersText(layers)
    ensures ProperLayers(Prepend(p, layers))
  {}

  lemma Advance(s: string, n: nat)
    requires 0 < n <= |s|
    ensures s[..n] == [s[0]] + s[1..][..n - 1]
  {}

  lemma {:induction false} OutsideIsSound(s: string, depth: nat, n: nat) returns (layers: seq<seq<Piece>>)
    requires depth > 0 && Scan(s, depth, Outside) == Some(n)
    ensures |layers| == depth && ProperLayers(layers) && s[..n] == LayersText(layers)
    decreases |s|
  {
    Advance(s, n);
    if s[0] == '"' {
      var chars;
      chars, layers := InStringIsSound(s[1..], depth, n - 1);
      PrependText(Quoted(chars), layers);
      QuotedFront(chars, LayersText(layers));
      layers := Prepend(Quoted(chars), layers);
    } else if s[0] == '[' {
      var open := OutsideIsSound(s[1..], depth + 1, n - 1);
      PrependText(Nested(open[0]), open[1..]);
      NestedFront(open);
      layers := Prepend(Nested(open[0]), open[1..]);
    } else if s[0] == ']' {
      var outer := [];
      if depth > 1 { outer := OutsideIsSound(s[1..], depth - 1, n - 1); }
      EmptyFront(outer);
      layers := [[]] + outer;
    } else {
      layers := OutsideIsSound(s[1..], depth, n - 1);
      PrependText(Plain(s[0]), layers);
      layers := Prepend(Plain(s[0]), layers);
    }
  }

  lemma EmptyFront(outer: seq<seq<Piece>>)
    ensures LayersText([[]] + outer) == "]" + LayersText(outer)
    ensures ProperLayers(outer) ==> ProperLayers([[]] + outer)
  {
    assert ([[]] + outer)[1..] == outer;
  }

  lemma QuotedFront(chars: seq<QuotedChar>, rest: string)
    ensures PieceText(Quoted(chars)) + rest == "\"" + (CharsText(chars) + "\"" + rest)
  {}

  lemma NestedFront(open: seq<seq<Piece>>)
    requires open != []
    ensures PieceText(Nested(open[0])) + LayersText(open[1..]) == "[" + LayersText(open)
  {}

  lemma {:induction false} InStringIsSound(s: string, depth: nat, n: nat)
    returns (chars: seq<QuotedChar>, layers: seq<seq<Piece>>)
    requires depth > 0 && Scan(s, depth, InString) == Some(n)
    ensures |layers| == depth && ProperLayers(layers)
    ensures forall i :: 0 <= i < |chars| ==> ProperChar(chars[i])
    ensures s[..n] == CharsText(chars) + "\"" + LayersText(layers)
    decreases |s|
  {
    Advance(s, n);
    if s[0] == '"' {
      chars := [];
      layers := OutsideIsSound(s[1..], depth, n - 1);
      assert CharsText([]) == "";
    } else {
      var first, rest;
      if s[0] == '\\' {
        Advance(s[1..], n - 1);
        assert s[1..][1..] == s[2..];
        rest, layers := InStringIsSound(s[2..], depth, n - 2);
        first := Escape(s[1]);
      } else {
        rest, layers := InStringIsSound(s[1..], depth, n - 1);
        first := Char(s[0]);
      }
      chars := [first] + rest;
      CharsFront(first, rest, LayersText(layers));
    }
  }

  lemma CharsFront(q: QuotedChar, chars: seq<QuotedChar>, after: string)
    ensures CharsText([q] + chars) + "\"" + after == CharText(q) + (CharsText(chars) + "\"" + after)
  {}

  // ----- exactness -----

  /** `t` is a bracketed text that begins at the first opening bracket of `candidate`. */
  ghost predicate FirstBracketed(candidate: string, t: string) {
    IsBracketed(t) && exists p, q :: candidate == p + t + q && '[' !in p
  }

  lemma FirstBracketedIsRead(candidate: string, t: string)
    requires FirstBracketed(candidate, t)
    ensures Extraction(candidate) == Ok(t)
  {
    var ps :| Proper(ps) && t == "[" + PiecesText(ps) + "]";
    var p, q :| candidate == p + t + q && '[' !in p;
    ScanBracketed(ps, q);
    ReadAt(candidate, p, PiecesText(ps), q);
  }

  lemma ReadAt(candidate: string, p: string, inner: string, q: string)
    requires '[' !in p && candidate == p + ("[" + inner + "]") + q
    requires Scan(("[" + inner + "]") + q, 0, Outside) == Some(|inner| + 2)
    ensures Extraction(candidate) == Ok("[" + inner + "]")
  {
    Located(candidate, p, inner, q);
    assert candidate[|p|..|p| + (|inner| + 2)] == "[" + inner + "]";
  }

  lemma Located(candidate: string, p: string, inner: string, q: string)
    requires '[' !in p && candidate == p + ("[" + inner + "]") + q
    ensures IndexOf(candidate, '[') == Some(|p|) && candidate[|p|..] == ("[" + inner + "]") + q
  {
    IndexOfUnique(p, '[', inner + "]" + q);
    assert candidate == p + ['['] + (inner + "]" + q);
  }

  lemma Slices(s: string, start: nat, n: nat)
    requires start + n <= |s|
    ensures s[start..start + n] == s[start..][..n]
    ensures s == s[..start] + s[start..][..n] + s[start + n..]
  {}

  lemma WhatIsReadIsBracketed(candidate: string)
    requires Extraction(candidate).Ok?
    ensures FirstBracketed(candidate, Extraction(candidate).value)
  {
    var start := IndexOf(candidate, '[').value;
    var s := candidate[start..];
    var n := Scan(s, 0, Outside).value;
    WholeScanIsSound(s, n);
    Slices(candidate, start, n);
  }

  lemma WholeScanIsSound(s: string, n: nat)
    requires s != "" && s[0] == '[' && Scan(s, 0, Outside) == Some(n)
    ensures IsBracketed(s[..n])
  {
    Advance(s, n);
    var layers := OutsideIsSound(s[1..], 1, n - 1);
    OneLayer(layers);
    assert s[..n] == "[" + PiecesText(layers[0]) + "]";
  }

  lemma OneLayer(layers: seq<seq<Piece>>)
    requires |layers| == 1
    ensures LayersText(layers) == PiecesText(layers[0]) + "]"
  {}

  /** The scanner returns a text exactly when it is a bracketed text from the first opening bracket on. */
  lemma ExtractionIsExact(candidate: string, t: string)
    ensures Extraction(candidate) == Ok(t) <==> FirstBracketed(candidate, t)
    ensures Extraction(candidate) == Err(NoArray) <==> '[' !in candidate
  {
    if FirstBracketed(candidate, t) { FirstBracketedIsRead(candidate, t); }
    if Extraction(candidate) == Ok(t) { WhatIsReadIsBracketed(candidate); }
  }

  lemma StartsWith(u: string, t: string)
    requires IsBracketed(t) && t <= u
    ensures FirstBracketed(u, t)
  {
    assert u == "" + t + u[|t|..];
  }

  /** Nothing that starts a returned text is itself bracketed: the text ends at the first chance. */
  lemma NothingShorter(t: string, u: string)
    requires IsBracketed(t) && IsBracketed(u) && t <= u
    ensures t == u
  {
    StartsWith(u, t);
    StartsWith(u, u);
    FirstBracketedIsRead(u, t);
    FirstBracketedIsRead(u, u);
  }

  // ----- printed JSON -----

  ghost predicate Readable(t: string) {
    exists ps :: Proper(ps) && PiecesText(ps) == t
  }

  lemma {:induction false} PiecesConcat(a: seq<Piece>, b: seq<Piece>)
    ensures PiecesText(a + b) == PiecesText(a) + PiecesText(b)
    decreases |a|
  {
    if a == [] {
      assert [] + b == b;
    } else {
      PiecesConcat(a[1..], b);
      PiecesCons(a[0], a[1..] + b);
      PiecesCons(a[0], a[1..]);
      assert a + b == [a[0]] + (a[1..] + b) && a == [a[0]] + a[1..];
    }
  }

  lemma PiecesCons(p: Piece, ps: seq<Piece>)
    ensures PiecesText([p] + ps) == PieceText(p) + PiecesText(ps)
  {}

  lemma ReadableConcat(s: string, t: string)
    requires Readable(s) && Readable(t)
    ensures Readable(s + t)
  {
    var a :| Proper(a) && PiecesText(a) == s;
    var b :| Proper(b) && PiecesText(b) == t;
    PiecesConcat(a, b);
    assert Proper(a + b);
  }

  lemma ReadablePiece(p: Piece)
    requires ProperPiece(p)
    ensures Readable(PieceText(p))
  {
    assert PiecesText([p]) == PieceText(p) + PiecesText([]);
    assert Proper([p]);
  }

  lemma {:induction false} ReadablePlain(s: string)
    requires forall i :: 0 <= i < |s| ==> s[i] !in "\"[]"
    ensures Readable(s)
  {
    if s == "" {
      assert PiecesText([]) == "" && Proper([]);
    } else {
      ReadablePlain(s[1..]);
      ReadablePiece(Plain(s[0]));
      ReadableConcat([s[0]], s[1..]);
      assert s == [s[0]] + s[1..];
    }
  }

  /** A printed string holds no bare quote: it is read as one quoted piece. */
  lemma {:induction false} EscapedChars(s: string) returns (chars: seq<QuotedChar>)
    ensures forall i :: 0 <= i < |chars| ==> ProperChar(chars[i])
    ensures CharsText(chars) == Escaped(s)
  {
    if s == "" {
      chars := [];
    } else {
      var rest := EscapedChars(s[1..]);
      var first := EscapedChar(s[0]);
      chars := first + rest;
      CharsConcat(first, rest);
    }
  }

  lemma {:induction false} CharsConcat(a: seq<QuotedChar>, b: seq<QuotedChar>)
    ensures CharsText(a + b) == CharsText(a) + CharsText(b)
    decreases |a|
  {
    if a == [] {
      assert [] + b == b;
    } else {
      CharsConcat(a[1..], b);
      CharsCons(a[0], a[1..] + b);
      CharsCons(a[0], a[1..]);
      assert a + b == [a[0]] + (a[1..] + b) && a == [a[0]] + a[1..];
    }
  }

  lemma CharsCons(q: QuotedChar, chars: seq<QuotedChar>)
    ensures CharsText([q] + chars) == CharText(q) + CharsText(chars)
  {}

  lemma EscapedChar(c: char) returns (chars: seq<QuotedChar>)
    ensures forall i :: 0 <= i < |chars| ==> ProperChar(chars[i])
    ensures CharsText(chars) == EscapeChar(c)
  {
    var e := EscapeChar(c);
    if |e| == 1 {
      chars := [Char(c)];
      OneChar(Char(c));
    } else {
      chars := [Escape(e[1])] + seq(|e| - 2, i requires 0 <= i < |e| - 2 => Char(e[i + 2]));
      OneChar(Escape(e[1]));
      if |e| == 2 {
        assert chars == [Escape(e[1])] && e == ['\\', e[1]];
      } else {
        FourChars(e[2], e[3], e[4], e[5]);
        CharsConcat([Escape(e[1])], [Char(e[2]), Char(e[3]), Char(e[4]), Char(e[5])]);
        assert chars == [Escape(e[1])] + [Char(e[2]), Char(e[3]), Char(e[4]), Char(e[5])];
      }
    }
  }

  lemma OneChar(q: QuotedChar)
    ensures CharsText([q]) == CharText(q)
  {}

  lemma FourChars(a: char, b: char, c: char, d: char)
    ensures CharsText([Char(a), Char(b), Char(c), Char(d)]) == [a, b, c, d]
  {
    OneChar(Char(a));
    OneChar(Char(b));
    OneChar(Char(c));
    OneChar(Char(d));
    CharsConcat([Char(a)], [Char(b)]);
    CharsConcat([Char(c)], [Char(d)]);
    CharsConcat([Char(a), Char(b)], [Char(c), Char(d)]);
    assert [Char(a), Char(b), Char(c), Char(d)] == [Char(a), Char(b)] + [Char(c), Char(d)];
    assert [Char(a), Char(b)] == [Char(a)] + [Char(b)] && [Char(c), Char(d)] == [Char(c)] + [Char(d)];
  }

  lemma QuoteIsReadable(s: string)
    ensures Readable(Quote(s))
  {
    var chars := EscapedChars(s);
    ReadablePiece(Quoted(chars));
  }

  lemma {:induction false} JoinIsReadable(texts: seq<string>)
    requires forall i :: 0 <= i < |texts| ==> Readable(texts[i])
    ensures Readable(Join(texts, ","))
  {
    ReadablePlain("");
    ReadablePlain(",");
    if |texts| > 1 {
      JoinIsReadable(texts[1..]);
      ReadableConcat(texts[0], ",");
      ReadableConcat(texts[0] + ",", Join(texts[1..], ","));
    }
  }

  lemma {:induction false} PrintIsReadable(v: Json)
    ensures Readable(Print(v))
    decreases v, 1
  {
    match v
    case JNull => ReadablePlain("null");
    case JBool(b) => ReadablePlain(Print(v));
    case JInt(i) => ReadablePlain(PrintInt(i));
    case JString(s) => QuoteIsReadable(s);
    case JArray(items) =>
      ItemsAreReadable(items);
      ArrayIsBracketed(items);
      var ps :| Proper(ps) && Print(v) == "[" + PiecesText(ps) + "]";
      ReadablePiece(Nested(ps));
    case JObject(fields) =>
      FieldsAreReadable(fields);
      JoinIsReadable(PrintFields(fields));
      ReadablePlain("{");
      ReadablePlain("}");
      ReadableConcat(Join(PrintFields(fields), ","), "}");
      ReadableConcat("{", Body(PrintFields(fields), '}'));
  }

  lemma ArrayIsBracketed(items: seq<Json>)
    requires forall i :: 0 <= i < |items| ==> Readable(PrintItems(items)[i])
    ensures IsBracketed(Print(JArray(items)))
  {
    BodyIsBracketed(PrintItems(items));
  }

  lemma BodyIsBracketed(texts: seq<string>)
    requires forall i :: 0 <= i < |texts| ==> Readable(texts[i])
    ensures IsBracketed("[" + Body(texts, ']'))
  {
    JoinIsReadable(texts);
    var ps :| Proper(ps) && PiecesText(ps) == Join(texts, ",");
    assert "[" + Body(texts, ']') == "[" + PiecesText(ps) + "]";
  }

  lemma {:induction false} ItemsAreReadable(items: seq<Json>)
    ensures forall i :: 0 <= i < |items| ==> Readable(PrintItems(items)[i])
    decreases items, 0
  {
    if items != [] {
      PrintIsReadable(items[0]);
      ItemsAreReadable(items[1..]);
    }
  }

  lemma {:induction false} FieldsAreReadable(fields: seq<Field>)
    ensures forall i :: 0 <= i < |PrintFields(fields)| ==> Readable(PrintFields(fields)[i])
    decreases fields, 0
  {
    if fields != [] {
      FieldsAreReadable(fields[1..]);
      if fields[0].value.Some? {
        var v := fields[0].value.value;
        PrintIsReadable(v);
        QuoteIsReadable(fields[0].key);
        ReadablePlain(":");
        ReadableConcat(Quote(fields[0].key), ":");
        ReadableConcat(Quote(fields[0].key) + ":", Print(v));
      }
    }
  }

  /** A printed array is cut out whole, whatever its strings hold and whatever follows it. */
  lemma PrintedArrayIsExtracted(items: seq<Json>, prefix: string, suffix: string)
    requires '[' !in prefix
    ensures Extraction(prefix + Print(JArray(items)) + suffix) == Ok(Print(JArray(items)))
  {
    ItemsAreReadable(items);
    ArrayIsBracketed(items);
    FirstBracketedIsRead(prefix + Print(JArray(items)) + suffix, Print(JArray(items)));
  }

  // ----- an answer with a fence -----

  ghost predicate TicksFree(t: string) {
    forall i: nat :: !At(t, i, TICKS)
  }

  lemma ClosingTicks(text: string, rest: string)
    requires TicksFree(text)
    ensures FirstTicks(text + ("\n" + TICKS + rest), |text| + 1)
  {
    var tail := "\n" + TICKS + rest;
    var block := text + tail;
    assert tail[1..4] == TICKS;
    AtSuffix(text, tail, 1, TICKS);
    forall j: nat | j < |text| + 1
      ensures !At(block, j, TICKS)
    {
      NoEarlierTicks(text, tail, j);
    }
  }

  lemma NoEarlierTicks(text: string, tail: string, j: nat)
    requires TicksFree(text) && tail != "" && tail[0] == '\n' && j <= |text|
    ensures !At(text + tail, j, TICKS)
  {
    var block := text + tail;
    if j + 3 <= |text| {
      assert block[j..j + 3] == text[j..j + 3] && !At(text, j, TICKS);
    } else if j + 3 <= |block| {
      assert block[j..j + 3][|text| - j] == block[|text|] == '\n';
    }
  }

  /** Ticks inside the printed text come first, and cut it short. */
  lemma InnerTicks(text: string, tail: string) returns (e: nat)
    requires !TicksFree(text)
    ensures e < |text| && FirstTicks(text + tail, e)
  {
    var block := text + tail;
    var i: nat :| At(text, i, TICKS);
    assert At(block, i, TICKS) by { assert block[i..i + 3] == text[i..i + 3]; }
    e := Find(block, TICKS, 0).value;
  }

  predicate TicksAt(text: string, i: nat) {
    i + 3 <= |text| && text[i] == '`' && text[i + 1] == '`' && text[i + 2] == '`'
  }

  predicate NoTicks(text: string) {
    forall i :: 0 <= i < |text| ==> !TicksAt(text, i)
  }

  /**
   * The usual answer: prose, a fenced printed array, more prose. However many brackets the prose before it has, the
   * array is cut out whole, exactly when no string in it holds three backticks: the fence does not know about strings.
   */
  lemma FencedArrayIsExtracted(items: seq<Json>, prose: string, rest: string)
    requires '`' !in prose
    ensures
      var text := Print(JArray(items));
      var raw := prose + "```json\n" + (text + ("\n```" + rest));
      Extraction(Candidate(raw)) == Ok(text) <==> NoTicks(text)
  {
    var text := Print(JArray(items));
    TicksInWords(text);
    assert OPENING == "```json\n" && "\n```" == "\n" + TICKS;
    FencedTextIsExtracted(items, text, prose, rest);
  }

  lemma TicksInWords(text: string)
    ensures NoTicks(text) <==> TicksFree(text)
  {
    forall i: nat { TicksAreTicks(text, i); }
  }

  lemma TicksAreTicks(text: string, i: nat)
    ensures At(text, i, TICKS) <==> TicksAt(text, i)
  {
    if i + 3 <= |text| {
      var cut := text[i..i + 3];
      assert cut[0] == text[i] && cut[1] == text[i + 1] && cut[2] == text[i + 2];
      assert cut == TICKS <==> cut[0] == '`' && cut[1] == '`' && cut[2] == '`';
    }
  }

  /** An answer without a backtick is scanned as it is. */
  lemma PlainAnswerIsScanned(raw: string)
    requires '`' !in raw
    ensures Candidate(raw) == raw
  {
    forall m
      ensures !IsMatch(raw, m)
    {
      FirstChar(raw, m.start, TICKS);
    }
    CandidateIsCaptured(raw, Match(0, 0, 0, 0));
  }

  lemma FencedTextIsExtracted(items: seq<Json>, text: string, prose: string, rest: string)
    requires '`' !in prose && text == Print(JArray(items))
    ensures Extraction(Candidate(prose + OPENING + (text + ("\n" + TICKS + rest)))) == Ok(text) <==> TicksFree(text)
  {
    var block := text + ("\n" + TICKS + rest);
    assert block[0] == '[';
    if TicksFree(text) {
      ClosingTicks(text, rest);
      BlockIsCaptured(prose, block, |text| + 1);
      PrintedArrayIsExtracted(items, "", "\n");
      assert block[..|text| + 1] == "" + text + "\n";
    } else {
      var e := InnerTicks(text, "\n" + TICKS + rest);
      BlockIsCaptured(prose, block, e);
    }
  }
}
