/** Identity of the caller: the `X-Profile-Id` request header, with a development fallback profile. */
module CurrentUsers {
  import opened Wrappers
  import opened Text
  import opened Numerals
  import opened JavaText
  import opened Uuids

  /** d3576ad7-6f1f-490a-82a3-3a2de80d186f */
  const DefaultProfileId: Uuid := UuidBits(0xd357_6ad7, 0x6f1f, 0x490a, 0x82a3, 0x3a2d_e80d_186f)

  const ProfileIdHeader: string := "X-Profile-Id"

  /** The profile id a request acts as; `raw` is the header value, `None` when the header is absent.
      A missing, blank or unparseable value falls back to the default profile, so it never fails. */
  function ResolveProfileId(raw: Option<string>): (r: Uuid)
    ensures raw.None? ==> r == DefaultProfileId
    ensures raw.Some? && JavaTrim(raw.value) == [] ==> r == DefaultProfileId
    ensures raw.Some? && ParseUuid(JavaTrim(raw.value)).None? ==> r == DefaultProfileId
    ensures raw.Some? && ParseUuid(JavaTrim(raw.value)).Some? ==> r == ParseUuid(JavaTrim(raw.value)).value
  {
    if raw.None? then DefaultProfileId
    else
      var trimmed := JavaTrim(raw.value);
      if trimmed == [] then DefaultProfileId
      else
        match ParseUuid(trimmed)
        case Some(id) => id
        case None => DefaultProfileId
  }

  /** The result is always the default profile or what the trimmed header parses to. */
  lemma ResolvedIsDefaultOrParsed(raw: Option<string>)
    ensures var r := ResolveProfileId(raw);
      r == DefaultProfileId || (raw.Some? && ParseUuid(JavaTrim(raw.value)) == Some(r))
  {
  }

  /** The text form of a UUID starts and ends with a hexadecimal digit, so `trim` leaves it alone. */
  lemma FormattedIsTrimmed(u: Uuid)
    ensures IsTrimmed(FormatUuid(u), IsTrimSpace)
  {
    var s := FormatUuid(u);
    var gs := Groups(u);
    assert s == gs[0] + "-" + Join(gs[1..], '-');
    assert s[0] == gs[0][0];
    assert CharDigit(s[0], 16) >= 0;
    LastOfJoin(gs, '-');
    assert CharDigit(s[|s| - 1], 16) >= 0;
  }

  lemma {:induction false} LastOfJoin(parts: seq<string>, c: char)
    requires |parts| >= 1 && parts[|parts| - 1] != []
    ensures Join(parts, c) != [] && Join(parts, c)[|Join(parts, c)| - 1] == parts[|parts| - 1][|parts[|parts| - 1]| - 1]
    decreases |parts|
  {
    if |parts| > 1 {
      LastOfJoin(parts[1..], c);
    }
  }

  /** A header carrying the text of a UUID, padded with spaces or control characters, resolves to that UUID. */
  lemma ResolveFormatted(u: Uuid, pre: string, post: string)
    requires AllOf(pre, IsTrimSpace) && AllOf(post, IsTrimSpace)
    ensures ResolveProfileId(Some(pre + FormatUuid(u) + post)) == u
  {
    FormattedIsTrimmed(u);
    TrimPadded(pre, FormatUuid(u), post, IsTrimSpace);
    ParseFormat(u);
  }

  /** The request-scoped holder of the caller's profile id, fixed once from the header. */
  class CurrentUser {
    const profileId: Uuid

    constructor(header: Option<string>)
      ensures profileId == ResolveProfileId(header)
    {
      profileId := ResolveProfileId(header);
    }
  }
}
