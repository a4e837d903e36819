/** The java.lang.String and Integer operations the backend relies on. */
module JavaText {
  import opened Wrappers
  import opened Text
  import opened Numerals

  /** `String.trim` removes every leading and trailing character up to U+0020. */
  predicate IsTrimSpace(c: char) {
    c <= ' '
  }

  function JavaTrim(s: string): string {
    Trim(s, IsTrimSpace)
  }

  /** `Character.isWhitespace`: the Unicode space separators other than the no-break ones, and the controls
      U+0009..U+000D and U+001C..U+001F. */
  predicate IsJavaWhitespace(c: char) {
    || ('\t' <= c <= '\r')
    || ('\U{1C}' <= c <= ' ')
    || c == '\U{1680}'
    || ('\U{2000}' <= c <= '\U{2006}')
    || ('\U{2008}' <= c <= '\U{200A}')
    || c == '\U{2028}' || c == '\U{2029}' || c == '\U{205F}' || c == '\U{3000}'
  }

  /** `String.isBlank`. */
  predicate IsBlank(s: string) {
    AllOf(s, IsJavaWhitespace)
  }

  /** `s.indexOf(c)` for a single character. */
  function CharIndex(s: string, c: char): (r: Option<nat>)
    ensures r.None? <==> c !in s
    ensures r.Some? ==> r.value < |s| && s[r.value] == c && c !in s[..r.value]
  {
    if s == [] then None
    else if s[0] == c then Some(0)
    else
      match CharIndex(s[1..], c)
      case None => None
      case Some(i) =>
        assert s[..i + 1] == [s[0]] + s[1..][..i];
        Some(i + 1)
  }

  predicate OccursAt(s: string, sub: string, i: nat) {
    i + |sub| <= |s| && s[i..i + |sub|] == sub
  }

  function IndexOfFrom(s: string, sub: string, k: nat): (r: Option<nat>)
    decreases |s| - k
    ensures r.Some? ==> k <= r.value && OccursAt(s, sub, r.value)
    ensures r.Some? ==> forall j :: k <= j < r.value ==> !OccursAt(s, sub, j)
    ensures r.None? ==> forall j :: k <= j ==> !OccursAt(s, sub, j)
  {
    if k + |sub| > |s| then None
    else if s[k..k + |sub|] == sub then Some(k)
    else IndexOfFrom(s, sub, k + 1)
  }

  /** `s.indexOf(sub)`: the first position where `sub` occurs. */
  function IndexOf(s: string, sub: string): (r: Option<nat>)
    ensures r.Some? ==> OccursAt(s, sub, r.value) && forall j :: 0 <= j < r.value ==> !OccursAt(s, sub, j)
    ensures r.None? ==> forall j :: 0 <= j ==> !OccursAt(s, sub, j)
  {
    IndexOfFrom(s, sub, 0)
  }

  /** The pieces of `s` between occurrences of `c`, including empty ones (one more piece than separators). */
  function Fields(s: string, c: char): (r: seq<string>)
    ensures |r| >= 1
    ensures forall i :: 0 <= i < |r| ==> c !in r[i]
    decreases |s|
  {
    match CharIndex(s, c)
    case None => [s]
    case Some(i) => [s[..i]] + Fields(s[i + 1..], c)
  }

  /** `String.join` with a one-character separator. */
  function Join(parts: seq<string>, c: char): (r: string)
    requires |parts| >= 1
  {
    if |parts| == 1 then parts[0] else parts[0] + [c] + Join(parts[1..], c)
  }

  lemma FieldsCons(a: string, b: string, c: char)
    requires c !in a
    ensures Fields(a + [c] + b, c) == [a] + Fields(b, c)
  {
    var s := a + [c] + b;
    assert s[|a|] == c;
    assert s[..|a|] == a;
    assert CharIndex(s, c) == Some(|a|);
    assert s[|a| + 1..] == b;
  }

  /** Splitting a join of separator-free parts at the separator gives the parts back. */
  lemma {:induction false} FieldsOfJoin(parts: seq<string>, c: char)
    requires |parts| >= 1
    requires forall i :: 0 <= i < |parts| ==> c !in parts[i]
    ensures Fields(Join(parts, c), c) == parts
    decreases |parts|
  {
    if |parts| == 1 {
      assert Fields(parts[0], c) == [parts[0]];
    } else {
      FieldsOfJoin(parts[1..], c);
      FieldsCons(parts[0], Join(parts[1..], c), c);
      assert parts == [parts[0]] + parts[1..];
    }
  }

  /** Removes the empty strings at the end of `xs`. */
  function DropTrailingEmpty(xs: seq<string>): (r: seq<string>)
    ensures |r| <= |xs| && r == xs[..|r|]
    ensures r != [] ==> r[|r| - 1] != []
    ensures forall i :: |r| <= i < |xs| ==> xs[i] == []
  {
    if xs != [] && xs[|xs| - 1] == [] then DropTrailingEmpty(xs[..|xs| - 1]) else xs
  }

  /** `s.split(c)` for a separator that is not a regular-expression metacharacter: when `c` occurs, the
      pieces between occurrences with the trailing empty pieces removed; otherwise `s` itself. */
  function JavaSplit(s: string, c: char): seq<string> {
    if c !in s then [s] else DropTrailingEmpty(Fields(s, c))
  }

  predicate AllSeparators(s: string, c: char) {
    forall k :: 0 <= k < |s| ==> s[k] == c
  }

  predicate AllEmpty(xs: seq<string>) {
    forall j :: 0 <= j < |xs| ==> xs[j] == []
  }

  lemma {:induction false} FieldsAllEmpty(s: string, c: char)
    ensures AllEmpty(Fields(s, c)) <==> (s == [] || AllSeparators(s, c))
    decreases |s|
  {
    match CharIndex(s, c)
    case None =>
      assert Fields(s, c) == [s];
      if s != [] {
        assert s[0] in s && s[0] != c;
        assert !AllSeparators(s, c);
        assert Fields(s, c)[0] != [];
      }
    case Some(i) =>
      var rest := s[i + 1..];
      FieldsAllEmpty(rest, c);
      var fs := Fields(s, c);
      assert fs == [s[..i]] + Fields(rest, c);
      if AllEmpty(fs) {
        assert fs[0] == s[..i];
        assert AllEmpty(Fields(rest, c)) by {
          forall j | 0 <= j < |Fields(rest, c)| ensures Fields(rest, c)[j] == [] {
            assert Fields(rest, c)[j] == fs[j + 1];
          }
        }
        forall k | 0 <= k < |s| ensures s[k] == c {
          if k > 0 { assert s[k] == rest[k - 1]; }
        }
      }
      if AllSeparators(s, c) {
        assert i == 0;
        assert AllSeparators(rest, c) by {
          forall k | 0 <= k < |rest| ensures rest[k] == c { assert rest[k] == s[k + 1]; }
        }
        forall j | 0 <= j < |fs| ensures fs[j] == [] {
          if j == 0 { assert fs[0] == s[..0]; } else { assert fs[j] == Fields(rest, c)[j - 1]; }
        }
      }
  }

  /** `s.split(c)` is an empty array exactly when `s` is a non-empty run of separators; then `split(c)[0]` throws. */
  lemma SplitEmptyIff(s: string, c: char)
    ensures JavaSplit(s, c) == [] <==> s != [] && AllSeparators(s, c)
  {
    if c !in s {
      if s != [] { assert s[0] in s; }
    } else {
      FieldsAllEmpty(s, c);
      var xs := Fields(s, c);
      var r := DropTrailingEmpty(xs);
      if r == [] {
        assert AllEmpty(xs);
        assert s[0] in s;
      }
    }
  }

  /** When `split` returns something, its first element is the text before the first separator. */
  lemma SplitHead(s: string, c: char)
    requires JavaSplit(s, c) != []
    ensures JavaSplit(s, c)[0] == (match CharIndex(s, c) case None => s case Some(i) => s[..i])
  {
  }

  const IntMin: int := -0x8000_0000
  const IntMax: int := 0x7fff_ffff

  /** `Integer.parseInt(s)`: an optional sign, then at least one decimal digit, the value within 32 bits;
      `None` stands for the `NumberFormatException` thrown otherwise. */
  function ParseInt(s: string): (r: Option<int>)
    ensures r.Some? ==> IntMin <= r.value <= IntMax
  {
    if s == [] then None
    else
      var digits := if s[0] == '-' || s[0] == '+' then s[1..] else s;
      if digits == [] || !AllDigits(digits, 10) then None
      else
        var v: int := if s[0] == '-' then -(ValueOf(digits, 10) as int) else ValueOf(digits, 10);
        if IntMin <= v <= IntMax then Some(v) else None
  }

  function NumDigits(n: nat): (d: nat)
    ensures d >= 1 && n < Pow(10, d)
  {
    if n < 10 then 1 else 1 + NumDigits(n / 10)
  }

  /** `Integer.toString(n)` for a non-negative `n`. */
  function DecimalString(n: nat): (r: string)
    ensures r != [] && AllDigits(r, 10)
  {
    FixedWidth(n, NumDigits(n), 10)
  }

  lemma DecimalValue(n: nat)
    ensures ValueOf(DecimalString(n), 10) == n
    ensures DecimalString(n)[0] != '-' && DecimalString(n)[0] != '+'
  {
    ValueOfFixedWidth(n, NumDigits(n), 10);
    assert CharDigit(DecimalString(n)[0], 10) >= 0;
  }

  /** Parsing the decimal form of a non-negative int gives it back. */
  lemma ParseIntOfDecimal(n: nat)
    requires n <= IntMax
    ensures ParseInt(DecimalString(n)) == Some(n)
  {
    DecimalValue(n);
  }

  lemma ParseIntNegatedDigits(d: string)
    requires d != [] && AllDigits(d, 10) && ValueOf(d, 10) <= IntMax
    ensures ParseInt("-" + d) == Some(-(ValueOf(d, 10) as int))
  {
    var t := "-" + d;
    assert t[1..] == d;
  }

  /** Parsing a minus sign followed by the decimal form of a non-negative int gives its negation. */
  lemma ParseIntOfNegated(n: nat)
    requires n <= IntMax
    ensures ParseInt("-" + DecimalString(n)) == Some(-(n as int))
  {
    DecimalValue(n);
    ParseIntNegatedDigits(DecimalString(n));
  }
}
