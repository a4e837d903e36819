/** Trimming and ASCII case folding, shared by the Java backend model and the Swift client model. */
module Text {

  /** Drops the leading characters that satisfy `ws`. */
  function TrimStart(s: string, ws: char -> bool): string {
    if s != [] && ws(s[0]) then TrimStart(s[1..], ws) else s
  }

  /** What `TrimStart` leaves is a suffix that does not start with a `ws` character, after only `ws` characters. */
  lemma {:induction false} TrimStartSpec(s: string, ws: char -> bool)
    ensures var r := TrimStart(s, ws);
      && |r| <= |s| && r == s[|s| - |r|..]
      && (r != [] ==> !ws(r[0]))
      && (forall i :: 0 <= i < |s| - |r| ==> ws(s[i]))
    decreases |s|
  {
    if s != [] && ws(s[0]) {
      TrimStartSpec(s[1..], ws);
      var r := TrimStart(s, ws);
      forall i | 0 <= i < |s| - |r| ensures ws(s[i]) {
        if i > 0 { assert s[i] == s[1..][i - 1]; }
      }
    }
  }

  /** Drops the trailing characters that satisfy `ws`. */
  function TrimEnd(s: string, ws: char -> bool): string {
    if s != [] && ws(s[|s| - 1]) then TrimEnd(s[..|s| - 1], ws) else s
  }

  /** What `TrimEnd` leaves is a prefix that does not end with a `ws` character, before only `ws` characters. */
  lemma {:induction false} TrimEndSpec(s: string, ws: char -> bool)
    ensures var r := TrimEnd(s, ws);
      && |r| <= |s| && r == s[..|r|]
      && (r != [] ==> !ws(r[|r| - 1]))
      && (forall i :: |r| <= i < |s| ==> ws(s[i]))
    decreases |s|
  {
    if s != [] && ws(s[|s| - 1]) {
      TrimEndSpec(s[..|s| - 1], ws);
      var r := TrimEnd(s, ws);
      forall i | |r| <= i < |s| ensures ws(s[i]) {
        if i < |s| - 1 { assert s[i] == s[..|s| - 1][i]; }
      }
    }
  }

  /** Drops leading and trailing characters that satisfy `ws` (Java `trim`, Swift `trimmingCharacters`). */
  function Trim(s: string, ws: char -> bool): (r: string)
    ensures |r| <= |s|
    ensures r != [] ==> !ws(r[0]) && !ws(r[|r| - 1])
    ensures r == [] <==> forall i :: 0 <= i < |s| ==> ws(s[i])
  {
    var t := TrimStart(s, ws);
    TrimStartSpec(s, ws);
    TrimEndSpec(t, ws);
    assert TrimEnd(t, ws) != [] ==> TrimEnd(t, ws)[0] == t[0];
    TrimEnd(t, ws)
  }

  /** Every character `Trim` keeps comes from the input. */
  lemma TrimKeeps(s: string, ws: char -> bool)
    ensures forall i :: 0 <= i < |Trim(s, ws)| ==> Trim(s, ws)[i] in s
  {
    var t := TrimStart(s, ws);
    TrimStartSpec(s, ws);
    TrimEndSpec(t, ws);
    var r := Trim(s, ws);
    forall i | 0 <= i < |r| ensures r[i] in s {
      assert r[i] == t[i] == s[|s| - |t| + i];
    }
  }

  /** A string that neither starts nor ends with a `ws` character. */
  predicate IsTrimmed(s: string, ws: char -> bool) {
    s == [] || (!ws(s[0]) && !ws(s[|s| - 1]))
  }

  predicate AllOf(s: string, p: char -> bool) {
    forall i :: 0 <= i < |s| ==> p(s[i])
  }

  lemma TrimOfTrimmed(s: string, ws: char -> bool)
    requires IsTrimmed(s, ws)
    ensures Trim(s, ws) == s
  {
  }

  /** Trimming twice is trimming once. */
  lemma TrimIdempotent(s: string, ws: char -> bool)
    ensures Trim(Trim(s, ws), ws) == Trim(s, ws)
  {
    TrimOfTrimmed(Trim(s, ws), ws);
  }

  lemma {:induction false} TrimStartPadded(pre: string, core: string, ws: char -> bool)
    requires AllOf(pre, ws)
    requires core == [] || !ws(core[0])
    ensures TrimStart(pre + core, ws) == core
  {
    if pre != [] {
      assert (pre + core)[1..] == pre[1..] + core;
      TrimStartPadded(pre[1..], core, ws);
    } else {
      assert pre + core == core;
    }
  }

  lemma {:induction false} TrimEndPadded(core: string, post: string, ws: char -> bool)
    requires AllOf(post, ws)
    requires core == [] || !ws(core[|core| - 1])
    ensures TrimEnd(core + post, ws) == core
  {
    if post != [] {
      assert (core + post)[..|core + post| - 1] == core + post[..|post| - 1];
      TrimEndPadded(core, post[..|post| - 1], ws);
    } else {
      assert core + post == core;
    }
  }

  /** Trimming removes exactly the padding around a trimmed core. */
  lemma TrimPadded(pre: string, core: string, post: string, ws: char -> bool)
    requires AllOf(pre, ws) && AllOf(post, ws)
    requires IsTrimmed(core, ws)
    ensures Trim(pre + core + post, ws) == core
  {
    if core == [] {
      assert pre + core + post == pre + post;
      assert AllOf(pre + post, ws);
    } else {
      assert pre + core + post == pre + (core + post);
      TrimStartPadded(pre, core + post, ws);
      TrimEndPadded(core, post, ws);
    }
  }

  /** ASCII-only lower-casing. */
  function AsciiLower(c: char): (r: char)
    ensures 'A' <= c <= 'Z' ==> 'a' <= r <= 'z' && r as int == c as int + 32
    ensures !('A' <= c <= 'Z') ==> r == c
  {
    if 'A' <= c <= 'Z' then (c as int + 32) as char else c
  }

  /** Case-insensitive equality under ASCII case folding (Java `equalsIgnoreCase`, SQL `lower(a) = lower(b)`). */
  predicate EqualsIgnoreCase(a: string, b: string) {
    |a| == |b| && forall i :: 0 <= i < |a| ==> AsciiLower(a[i]) == AsciiLower(b[i])
  }
}
