/** Strings: trimming, decimal rendering, first occurrence, code-point order. */
module Text {
  import opened Prelude

  /** The white space and line terminators that `String.prototype.trim` removes. */
  predicate IsSpace(c: char) {
    || '\t' <= c <= '\r' || c == ' ' || c == '\U{00a0}' || c == '\U{1680}' || '\U{2000}' <= c <= '\U{200a}'
    || c == '\U{2028}' || c == '\U{2029}' || c == '\U{202f}' || c == '\U{205f}' || c == '\U{3000}' || c == '\U{feff}'
  }

  /** The same by code point, one by one. */
  lemma SpacesAreListed(c: char)
    ensures IsSpace(c) <==>
      || c as int in {9, 10, 11, 12, 13, 32, 160, 5760, 8192, 8193, 8194, 8195, 8196, 8197, 8198, 8199, 8200, 8201,
                      8202}
      || c as int in {8232, 8233, 8239, 8287, 12288, 65279}
  {}

  function TrimStart(s: string): (r: string)
    ensures |r| <= |s| && r == s[|s| - |r|..]
    ensures r != [] ==> !IsSpace(r[0])
  {
    if s != [] && IsSpace(s[0]) then TrimStart(s[1..]) else s
  }

  function TrimEnd(s: string): (r: string)
    ensures |r| <= |s| && r == s[..|r|]
    ensures r != [] ==> !IsSpace(r[|r| - 1])
  {
    if s != [] && IsSpace(s[|s| - 1]) then TrimEnd(s[..|s| - 1]) else s
  }

  function Trim(s: string): string {
    TrimEnd(TrimStart(s))
  }

  predicate Trimmed(s: string) {
    s != [] ==> !IsSpace(s[0]) && !IsSpace(s[|s| - 1])
  }

  lemma TrimOfTrimmed(s: string)
    requires Trimmed(s)
    ensures Trim(s) == s
  {}

  predicate AllSpace(s: string) { forall c :: c in s ==> IsSpace(c) }

  lemma SpacesJoin(a: string, b: string)
    requires AllSpace(a) && AllSpace(b)
    ensures AllSpace(a + b)
  {}

  lemma HeadJoins(s: string, before: string, kept: string)
    requires s != [] && s[1..] == before + kept
    ensures s == [s[0]] + before + kept
  {
    assert s == [s[0]] + s[1..];
  }

  lemma LastJoins(s: string, kept: string, after: string)
    requires s != [] && s[..|s| - 1] == kept + after
    ensures s == kept + (after + [s[|s| - 1]])
  {
    assert s == s[..|s| - 1] + [s[|s| - 1]];
  }

  lemma {:induction false} StartInWords(s: string) returns (before: string)
    ensures s == before + TrimStart(s) && AllSpace(before)
  {
    if s != [] && IsSpace(s[0]) {
      var rest := StartInWords(s[1..]);
      before := [s[0]] + rest;
      SpacesJoin([s[0]], rest);
      HeadJoins(s, rest, TrimStart(s[1..]));
    } else {
      before := [];
    }
  }

  lemma {:induction false} EndInWords(s: string) returns (after: string)
    ensures s == TrimEnd(s) + after && AllSpace(after)
  {
    if s != [] && IsSpace(s[|s| - 1]) {
      var rest := EndInWords(s[..|s| - 1]);
      after := rest + [s[|s| - 1]];
      SpacesJoin(rest, [s[|s| - 1]]);
      LastJoins(s, TrimEnd(s[..|s| - 1]), rest);
    } else {
      after := [];
    }
  }

  lemma TrimIsTrimmed(s: string)
    ensures Trimmed(Trim(s))
  {
    var rest := TrimStart(s);
    var kept := TrimEnd(rest);
    if kept != [] { assert kept[0] == rest[0]; }
  }

  /** Trimming takes white space off both ends, and no more than that. */
  lemma TrimInWords(s: string) returns (before: string, after: string)
    ensures s == before + Trim(s) + after && Trimmed(Trim(s))
    ensures AllSpace(before) && AllSpace(after)
  {
    TrimIsTrimmed(s);
    before := StartInWords(s);
    after := EndInWords(TrimStart(s));
    ThreeParts(s, before, TrimStart(s), Trim(s), after);
  }

  lemma ThreeParts(s: string, before: string, rest: string, kept: string, after: string)
    requires s == before + rest && rest == kept + after
    ensures s == before + kept + after
  {}

  predicate IsDigit(c: char) { '0' <= c <= '9' }

  predicate AllDigits(s: string) { forall i :: 0 <= i < |s| ==> IsDigit(s[i]) }

  function DigitChar(d: nat): (c: char)
    requires d < 10
    ensures IsDigit(c)
  {
    ('0' as int + d) as char
  }

  /** Decimal rendering of a natural number, as `String(n)` prints it. */
  function Decimal(n: nat): (s: string)
    ensures |s| >= 1 && AllDigits(s)
  {
    if n < 10 then [DigitChar(n)] else Decimal(n / 10) + [DigitChar(n % 10)]
  }

  function Value(s: string): nat
    requires AllDigits(s)
  {
    if s == [] then 0 else 10 * Value(s[..|s| - 1]) + (s[|s| - 1] as int - '0' as int)
  }

  lemma {:induction false} ValueOfDecimal(n: nat)
    ensures Value(Decimal(n)) == n
  {
    if n >= 10 {
      ValueOfDecimal(n / 10);
      assert Decimal(n)[..|Decimal(n)| - 1] == Decimal(n / 10);
    } else {
      assert Value([]) == 0;
      assert [DigitChar(n)][..0] == [];
    }
  }

  /** Different numbers never share a rendering. */
  lemma DecimalInjective(m: nat, n: nat)
    requires Decimal(m) == Decimal(n)
    ensures m == n
  {
    ValueOfDecimal(m);
    ValueOfDecimal(n);
  }

  /** One more never shortens a rendering, and lengthens it by at most one digit. */
  lemma {:induction false} DecimalLengthStep(n: nat)
    ensures |Decimal(n)| <= |Decimal(n + 1)| <= |Decimal(n)| + 1
  {
    if n + 1 >= 10 {
      if n >= 10 && (n + 1) / 10 == n / 10 {
      } else if n >= 10 {
        DecimalLengthStep(n / 10);
        assert (n + 1) / 10 == n / 10 + 1;
      }
    }
  }

  /** First index of `c` in `s`, the `indexOf` of the original (absent: None). */
  function IndexOf(s: string, c: char): (r: Option<nat>)
    ensures r.Some? ==> r.value < |s| && s[r.value] == c && c !in s[..r.value]
    ensures r.None? ==> c !in s
  {
    if s == [] then None
    else if s[0] == c then Some(0)
    else match IndexOf(s[1..], c)
      case None => None
      case Some(i) =>
        assert s[..i + 1] == [s[0]] + s[1..][..i];
        Some(i + 1)
  }

  /** Where the prefix before the first `c` has no `c`, the first index is the prefix's length. */
  lemma IndexOfUnique(p: string, c: char, q: string)
    requires c !in p
    ensures IndexOf(p + [c] + q, c) == Some(|p|)
  {
    var s := p + [c] + q;
    assert s[|p|] == c;
    var i := IndexOf(s, c).value;
    assert forall k :: 0 <= k < |p| ==> s[k] == p[k];
    forall k | 0 <= k < i
      ensures s[k] != c
    {
      assert s[..i][k] == s[k];
    }
  }

  /** Code-point order on strings: the order of SQLite's `ORDER BY` on ids and of `<` on keys. */
  predicate Less(a: string, b: string) {
    if b == [] then false
    else if a == [] then true
    else if a[0] != b[0] then a[0] < b[0]
    else Less(a[1..], b[1..])
  }

  /** `b` goes on where `a` ends, or has the greater character, after `i` characters that agree. */
  predicate DiffersAt(a: string, b: string, i: nat) {
    i <= |a| && i < |b| && a[..i] == b[..i] && (i == |a| || a[i] < b[i])
  }

  lemma DiffersOneLater(a: string, b: string, i: nat)
    requires a != [] && b != [] && a[0] == b[0]
    ensures DiffersAt(a[1..], b[1..], i) <==> DiffersAt(a, b, i + 1)
  {
    if i < |a| && i < |b| {
      assert a[..i + 1] == [a[0]] + a[1..][..i] && b[..i + 1] == [b[0]] + b[1..][..i];
      assert a[..i + 1][1..] == a[1..][..i] && b[..i + 1][1..] == b[1..][..i];
    }
  }

  lemma SharesHead(a: string, b: string, i: nat)
    ensures DiffersAt(a, b, i) && i > 0 ==> a != [] && b != [] && a[0] == b[0]
  {
    assert 0 < i <= |a| && i <= |b| ==> a[..i][0] == a[0] && b[..i][0] == b[0];
  }

  /** The order is decided at the first difference; a proper prefix comes first. */
  lemma {:induction false} LessInWords(a: string, b: string)
    ensures Less(a, b) <==> exists i: nat :: DiffersAt(a, b, i)
  {
    if a == [] || b == [] || a[0] != b[0] {
      if Less(a, b) { assert DiffersAt(a, b, 0); }
      forall i: nat { SharesHead(a, b, i); }
    } else {
      LessInWords(a[1..], b[1..]);
      forall i: nat { DiffersOneLater(a, b, i); }
      if Less(a, b) {
        var i: nat :| DiffersAt(a[1..], b[1..], i);
        assert DiffersAt(a, b, i + 1);
      }
      if j: nat :| DiffersAt(a, b, j) {
        assert j > 0 && DiffersAt(a[1..], b[1..], j - 1);
      }
    }
  }

  lemma {:induction false} LessIrreflexive(a: string)
    ensures !Less(a, a)
  {
    if a != [] { LessIrreflexive(a[1..]); }
  }

  lemma {:induction false} LessTransitive(a: string, b: string, c: string)
    requires Less(a, b) && Less(b, c)
    ensures Less(a, c)
  {
    if a != [] && a[0] == b[0] == c[0] { LessTransitive(a[1..], b[1..], c[1..]); }
  }

  lemma {:induction false} LessTotal(a: string, b: string)
    ensures a == b || Less(a, b) || Less(b, a)
  {
    if a != [] && b != [] && a[0] == b[0] {
      LessTotal(a[1..], b[1..]);
      assert a == [a[0]] + a[1..] && b == [b[0]] + b[1..];
    }
  }

  /** A proper prefix sorts before every extension of it. */
  lemma {:induction false} PrefixIsLess(a: string, q: string)
    requires q != []
    ensures Less(a, a + q)
  {
    if a != [] {
      PrefixIsLess(a[1..], q);
      assert (a + q)[1..] == a[1..] + q;
    }
  }

  predicate Ascending(ids: seq<string>) {
    forall i, j :: 0 <= i < j < |ids| ==> Less(ids[i], ids[j])
  }

  /** A strictly ascending sequence is determined by its members. */
  lemma {:induction false} AscendingIsUnique(a: seq<string>, b: seq<string>)
    requires Ascending(a) && Ascending(b) && forall x :: x in a <==> x in b
    ensures a == b
  {
    assert b != [] ==> b[0] in a;
    if a != [] {
      assert a[0] in b;
      HeadsAgree(a, b);
      forall x
        ensures x in a[1..] <==> x in b[1..]
      {
        TailMembers(a, x);
        TailMembers(b, x);
      }
      AscendingIsUnique(a[1..], b[1..]);
      assert a == [a[0]] + a[1..] && b == [b[0]] + b[1..];
    }
  }

  lemma TailMembers(a: seq<string>, x: string)
    requires Ascending(a) && a != []
    ensures x in a[1..] <==> x in a && x != a[0]
  {
    LessIrreflexive(a[0]);
    assert a == [a[0]] + a[1..];
    assert forall i :: 0 <= i < |a| - 1 ==> a[1..][i] == a[i + 1] && Less(a[0], a[i + 1]);
  }

  lemma HeadsAgree(a: seq<string>, b: seq<string>)
    requires Ascending(a) && Ascending(b) && a != [] && b != [] && a[0] in b && b[0] in a
    ensures a[0] == b[0]
  {
    if a[0] != b[0] {
      var i :| 0 <= i < |b| && b[i] == a[0];
      var j :| 0 <= j < |a| && a[j] == b[0];
      LessTransitive(a[0], b[0], a[0]);
      LessIrreflexive(a[0]);
    }
  }

  /** `Array.prototype.join`. */
  function Join(parts: seq<string>, sep: string): string {
    if parts == [] then ""
    else if |parts| == 1 then parts[0]
    else parts[0] + sep + Join(parts[1..], sep)
  }
}
