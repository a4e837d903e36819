/** The Swift `String` and `Character` behaviour the iOS client relies on. Strings are sequences of Unicode
    scalars here; grapheme clusters are not modelled. */
module SwiftText {
  import opened Text

  /** `CharacterSet.whitespacesAndNewlines`: the space separators (category Zs), tab, the line feeds
      U+000A..U+000D, NEXT LINE and the line and paragraph separators. */
  predicate IsSwiftWhitespace(c: char) {
    || ('\t' <= c <= '\r')
    || c == ' ' || c == '\U{85}' || c == '\U{A0}' || c == '\U{1680}'
    || ('\U{2000}' <= c <= '\U{200A}')
    || c == '\U{2028}' || c == '\U{2029}' || c == '\U{202F}' || c == '\U{205F}' || c == '\U{3000}'
  }

  /** `s.trimmingCharacters(in: .whitespacesAndNewlines)`. */
  function SwiftTrim(s: string): string {
    Trim(s, IsSwiftWhitespace)
  }

  /** `Character.isNumber`, for the ASCII digits and these blocks of other numeric characters: Latin-1
      superscripts and fractions, Arabic-Indic, Extended Arabic-Indic, Devanagari and Bengali digits,
      superscript and subscript digits, number forms, enclosed numbers and fullwidth digits. */
  predicate IsSwiftNumber(c: char) {
    || ('0' <= c <= '9')
    || c == '\U{B2}' || c == '\U{B3}' || c == '\U{B9}' || ('\U{BC}' <= c <= '\U{BE}')
    || ('\U{0660}' <= c <= '\U{0669}') || ('\U{06F0}' <= c <= '\U{06F9}')
    || ('\U{0966}' <= c <= '\U{096F}') || ('\U{09E6}' <= c <= '\U{09EF}')
    || c == '\U{2070}' || ('\U{2074}' <= c <= '\U{2079}') || ('\U{2080}' <= c <= '\U{2089}')
    || ('\U{2150}' <= c <= '\U{2182}') || ('\U{2460}' <= c <= '\U{249B}')
    || ('\U{FF10}' <= c <= '\U{FF19}')
  }

  /** `s.prefix(n)`: the first `n` characters, or all of `s` when it is shorter. */
  function Prefix(s: string, n: nat): (r: string)
    ensures |r| <= n && |r| <= |s|
    ensures |s| <= n ==> r == s
    ensures |s| > n ==> |r| == n
    ensures r == s[..|r|]
  {
    if |s| <= n then s else s[..n]
  }
}
