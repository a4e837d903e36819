/** The database debug endpoint: reading host and port out of a PostgreSQL JDBC URL, and redacting credentials. */
module JdbcDebug {
  import opened Wrappers
  import opened Text
  import opened JavaText
  import opened Numerals

  const Prefix: string := "jdbc:postgresql://"
  const DefaultPort: int := 5432
  const HostPortError: string := "Could not parse host/port from spring.datasource.url"

  /** The exceptions the parser can throw; either one escapes the endpoint. */
  datatype JdbcError = IndexOutOfBounds | NumberFormat

  datatype HostPort = HostPort(host: string, port: int)

  /** The "jdbc" entry of the debug report: the redacted URL always, host and port together or not at all. */
  datatype JdbcInfo = JdbcInfo(url: Option<string>, host: Option<string>, port: Option<int>)

  // ---------------------------------------------------------------------------------------------
  // Redaction

  /** The length of a query value: everything up to the next '&'. */
  function ValueLength(s: string): (n: nat)
    ensures n <= |s| && '&' !in s[..n] && (n == |s| || s[n] == '&')
  {
    match CharIndex(s, '&')
    case None => |s|
    case Some(i) => i
  }

  predicate MatchesAt(s: string, key: string, i: nat) {
    i + |key| <= |s| && EqualsIgnoreCase(s[i..i + |key|], key)
  }

  /** `s.replaceAll("(?i)(" + key + ")[^&]*", "$1***")`: scanning left to right, each case-insensitive occurrence
      of `key` keeps its own spelling and has the value after it, up to the next '&', replaced by `***`. */
  function RedactKey(s: string, key: string): (r: string)
    requires key != []
    decreases |s|
  {
    if s == [] then []
    else if MatchesAt(s, key, 0) then
      var v := ValueLength(s[|key|..]);
      s[..|key|] + "***" + RedactKey(s[|key| + v..], key)
    else [s[0]] + RedactKey(s[1..], key)
  }

  /** `redactJdbcUrl`: the password value first, then the user value. */
  function RedactJdbcUrl(url: Option<string>): (r: Option<string>)
    ensures r.None? <==> url.None?
  {
    match url
    case None => None
    case Some(u) => Some(RedactKey(RedactKey(u, "password="), "user="))
  }

  /** Text in which the key occurs nowhere is left as it is. */
  lemma {:induction false} RedactNoMatch(s: string, key: string)
    requires key != []
    requires forall i :: 0 <= i < |s| ==> !MatchesAt(s, key, i)
    ensures RedactKey(s, key) == s
    decreases |s|
  {
    if s != [] {
      assert !MatchesAt(s, key, 0);
      forall i | 0 <= i < |s| - 1 ensures !MatchesAt(s[1..], key, i) {
        assert !MatchesAt(s, key, i + 1);
        if i + |key| <= |s| - 1 {
          assert s[1..][i..i + |key|] == s[i + 1..i + 1 + |key|];
        }
      }
      RedactNoMatch(s[1..], key);
      assert s == [s[0]] + s[1..];
    }
  }

  /** A key at the front has its value, up to the next '&', replaced by `***`; scanning resumes at the '&'. */
  lemma RedactValue(k: string, v: string, rest: string, key: string)
    requires key != [] && EqualsIgnoreCase(k, key)
    requires '&' !in v && (rest == [] || rest[0] == '&')
    ensures RedactKey(k + v + rest, key) == k + "***" + RedactKey(rest, key)
  {
    var s := k + v + rest;
    assert s[..|key|] == k;
    assert s[|key|..] == v + rest;
    assert (v + rest)[..|v|] == v;
    assert rest != [] ==> (v + rest)[|v|] == '&';
    assert ValueLength(v + rest) == |v|;
    assert s[|key| + |v|..] == rest;
  }

  /** Redacting a URL with no "password=" or "user=" anywhere changes nothing. */
  lemma RedactUrlNoCredentials(u: string)
    requires forall i :: 0 <= i < |u| ==> !MatchesAt(u, "password=", i) && !MatchesAt(u, "user=", i)
    ensures RedactJdbcUrl(Some(u)) == Some(u)
  {
    RedactNoMatch(u, "password=");
    RedactNoMatch(u, "user=");
  }

  // ---------------------------------------------------------------------------------------------
  // Host and port

  /** The text before the first `c`, or all of `s`. */
  function Before(s: string, c: char): (r: string)
    ensures |r| <= |s| && c !in r && r == s[..|r|] && (|r| == |s| || s[|r|] == c)
  {
    match CharIndex(s, c)
    case None => s
    case Some(i) => s[..i]
  }

  /** The authority: what follows the first "jdbc:postgresql://", up to the first '/'; `None` without the prefix. */
  function Authority(url: string): (r: Option<string>)
    ensures r.None? <==> IndexOf(url, Prefix).None?
    ensures r.Some? ==> '/' !in r.value
  {
    match IndexOf(url, Prefix)
    case None => None
    case Some(idx) => Some(Before(url[idx + |Prefix|..], '/'))
  }

  /** The first comma-separated entry of the authority, trimmed, or `None` when it is empty. */
  function FirstEntry(authority: string): (r: Option<string>)
    ensures r.None? <==> JavaTrim(Before(authority, ',')) == []
    ensures r.Some? ==> r.value == JavaTrim(Before(authority, ',')) && ',' !in r.value
  {
    var parts := JavaSplit(authority, ',');
    if parts == [] then
      SplitEmptyIff(authority, ',');
      assert Before(authority, ',') == [];
      None
    else
      SplitHead(authority, ',');
      var e := JavaTrim(parts[0]);
      TrimKeeps(parts[0], IsTrimSpace);
      if e == [] then None else Some(e)
  }

  /** `firstHostPort.split(",")[0]` as the source writes it: an authority of commas only leaves an empty array,
      and indexing it throws. */
  function FirstEntryAsWritten(authority: string): (r: Result<Option<string>, JdbcError>)
  {
    var parts := JavaSplit(authority, ',');
    if parts == [] then Failure(IndexOutOfBounds)
    else
      var e := JavaTrim(parts[0]);
      Success(if e == [] then None else Some(e))
  }

  /** The code as written throws exactly on a non-empty run of commas; everywhere else it agrees with `FirstEntry`. */
  lemma FirstEntryAsWrittenThrows(authority: string)
    ensures FirstEntryAsWritten(authority).Failure? <==> authority != [] && AllSeparators(authority, ',')
    ensures FirstEntryAsWritten(authority).Success? ==> FirstEntryAsWritten(authority).value == FirstEntry(authority)
  {
    SplitEmptyIff(authority, ',');
  }

  /** The URL "jdbc:postgresql://,/db" makes the endpoint throw instead of reporting that no host was found. */
  lemma CommaOnlyAuthority()
    ensures Authority(Prefix + "," + "/db") == Some(",")
    ensures FirstEntryAsWritten(",") == Failure(IndexOutOfBounds)
    ensures FirstEntry(",") == None
    ensures HostPortOfAsWritten(Some(Prefix + "," + "/db")) == Failure(IndexOutOfBounds)
    ensures HostPortOf(Some(Prefix + "," + "/db")) == Success(None)
  {
    assert Authority(Prefix + "," + "/db") == Some(",") by {
      AuthorityAfterPrefix(",", "/db");
    }
    assert FirstEntryAsWritten(",") == Failure(IndexOutOfBounds) by {
      assert AllSeparators(",", ',');
      FirstEntryAsWrittenThrows(",");
    }
    assert FirstEntry(",") == None by {
      assert Before(",", ',') == [];
      assert JavaTrim([]) == [];
    }
    assert CommaRunAuthority(Some(Prefix + "," + "/db")) by {
      assert AllSeparators(",", ',');
    }
    HostPortAsWrittenDiffers(Some(Prefix + "," + "/db"));
  }

  /** Host and port from one entry: a bracketed IPv6 address `[h]` with an optional `:port` right after the
      bracket, or else `host[:port]` split at ':'; the port is 5432 unless given. `Success(None)` stands for
      a bracketed entry without ']'. */
  function EntryHostPort(entry: string): (r: Result<Option<HostPort>, JdbcError>)
    requires entry != []
  {
    if entry[0] == '[' then
      match CharIndex(entry, ']')
      case None => Success(None)
      case Some(close) =>
        var host := entry[1..close];
        if |entry| > close + 1 && entry[close + 1] == ':' then
          match ParseInt(entry[close + 2..])
          case None => Failure(NumberFormat)
          case Some(p) => Success(Some(HostPort(host, p)))
        else Success(Some(HostPort(host, DefaultPort)))
    else
      var hp := JavaSplit(entry, ':');
      if hp == [] then Failure(IndexOutOfBounds)
      else if |hp| >= 2 then
        match ParseInt(hp[1])
        case None => Failure(NumberFormat)
        case Some(p) => Success(Some(HostPort(hp[0], p)))
      else Success(Some(HostPort(hp[0], DefaultPort)))
  }

  /** Host and port of a JDBC URL, composed from the steps above; `Success(None)` when there are none. */
  function HostPortOf(url: Option<string>): Result<Option<HostPort>, JdbcError> {
    if url.None? then Success(None)
    else
      match Authority(url.value)
      case None => Success(None)
      case Some(a) =>
        match FirstEntry(a)
        case None => Success(None)
        case Some(e) => EntryHostPort(e)
  }

  /** The authority of the URL is a non-empty run of commas: the case where line 81 as written throws. */
  predicate CommaRunAuthority(url: Option<string>) {
    && url.Some?
    && Authority(url.value).Some?
    && Authority(url.value).value != []
    && AllSeparators(Authority(url.value).value, ',')
  }

  /** Host and port of a JDBC URL with the first-entry step as the source writes it. */
  function HostPortOfAsWritten(url: Option<string>): Result<Option<HostPort>, JdbcError> {
    if url.None? then Success(None)
    else
      match Authority(url.value)
      case None => Success(None)
      case Some(a) =>
        match FirstEntryAsWritten(a)
        case Failure(e) => Failure(e)
        case Success(None) => Success(None)
        case Success(Some(e)) => EntryHostPort(e)
  }

  /** The parse as written throws an index error exactly on a comma-run authority, and agrees with
      `HostPortOf` on every other URL. */
  lemma HostPortAsWrittenDiffers(url: Option<string>)
    ensures CommaRunAuthority(url) ==> HostPortOfAsWritten(url) == Failure(IndexOutOfBounds)
    ensures CommaRunAuthority(url) ==> HostPortOf(url) == Success(None)
    ensures !CommaRunAuthority(url) ==> HostPortOfAsWritten(url) == HostPortOf(url)
  {
    if url.Some? && Authority(url.value).Some? {
      var a := Authority(url.value).value;
      FirstEntryAsWrittenThrows(a);
      if a != [] && AllSeparators(a, ',') {
        assert a[0] == ',';
        assert Before(a, ',') == [];
        assert JavaTrim([]) == [];
      }
    }
  }

  /** The "jdbc" entry for a URL: the redacted URL with the host and port of `HostPortOf`, if any. */
  function JdbcInfoOf(url: Option<string>): Result<JdbcInfo, JdbcError> {
    match HostPortOf(url)
    case Failure(e) => Failure(e)
    case Success(None) => Success(JdbcInfo(RedactJdbcUrl(url), None, None))
    case Success(Some(hp)) => Success(JdbcInfo(RedactJdbcUrl(url), Some(hp.host), Some(hp.port)))
  }

  /** One entry's host and port, with early returns and a port that starts at 5432 and may be reassigned. */
  method ParseEntry(entry: string) returns (r: Result<Option<HostPort>, JdbcError>)
    requires entry != []
    ensures r == EntryHostPort(entry)
  {
    var host: string;
    var port := DefaultPort;
    if entry[0] == '[' {
      var close := CharIndex(entry, ']');
      if close.None? {
        return Success(None);
      }
      host := entry[1..close.value];
      if |entry| > close.value + 1 && entry[close.value + 1] == ':' {
        var p := ParseInt(entry[close.value + 2..]);
        if p.None? {
          return Failure(NumberFormat);
        }
        port := p.value;
      }
    } else {
      var hp := JavaSplit(entry, ':');
      if hp == [] {
        return Failure(IndexOutOfBounds);
      }
      host := hp[0];
      if |hp| >= 2 {
        var p := ParseInt(hp[1]);
        if p.None? {
          return Failure(NumberFormat);
        }
        port := p.value;
      }
    }
    return Success(Some(HostPort(host, port)));
  }

  /** `parsePostgresHostPort`: the redacted URL, then host and port when they can be found; a thrown exception
      is a `Failure`. */
  method ParsePostgresHostPort(url: Option<string>) returns (r: Result<JdbcInfo, JdbcError>)
    ensures r == JdbcInfoOf(url)
  {
    var out := JdbcInfo(RedactJdbcUrl(url), None, None);
    if url.None? {
      return Success(out);
    }
    var u := url.value;
    var idx := IndexOf(u, Prefix);
    if idx.None? {
      return Success(out);
    }
    var rest := u[idx.value + |Prefix|..];
    var slash := CharIndex(rest, '/');
    var hostPortAndMaybeMore := if slash.Some? then rest[..slash.value] else rest;
    assert Authority(u) == Some(hostPortAndMaybeMore);
    var firstHostPort := FirstEntry(hostPortAndMaybeMore);
    if firstHostPort.None? {
      return Success(out);
    }
    var hostPort := ParseEntry(firstHostPort.value);
    assert HostPortOf(url) == hostPort;
    match hostPort {
      case Failure(e) =>
        return Failure(e);
      case Success(None) =>
        return Success(out);
      case Success(Some(hp)) =>
        out := out.(host := Some(hp.host), port := Some(hp.port));
        return Success(out);
    }
  }

  /** Host and port are reported together or not at all, and always beside the redacted URL. */
  lemma JdbcInfoShape(url: Option<string>)
    ensures JdbcInfoOf(url).Failure? <==> HostPortOf(url).Failure?
    ensures JdbcInfoOf(url).Success? ==> JdbcInfoOf(url).value.url == RedactJdbcUrl(url)
    ensures JdbcInfoOf(url).Success? ==> (JdbcInfoOf(url).value.host.Some? <==> JdbcInfoOf(url).value.port.Some?)
  {
  }

  /** A missing URL reports only the (missing) URL. */
  lemma NullUrl()
    ensures JdbcInfoOf(None) == Success(JdbcInfo(None, None, None))
  {
  }

  /** The outcome of the endpoint after parsing: it either records the error and stops, or goes on to the DNS
      lookup and TCP probes of `host:port`. */
  datatype DebugReport =
    | MissingHostPort(jdbc: JdbcInfo, error: string)
    | Probe(jdbc: JdbcInfo, host: string, port: int)

  /** `debugDbConnectivity` up to the network probes. */
  method DebugDbConnectivity(url: Option<string>) returns (r: Result<DebugReport, JdbcError>)
    ensures r.Failure? <==> HostPortOf(url).Failure?
    ensures r.Success? ==> r.value.jdbc == JdbcInfoOf(url).value
    ensures r.Success? && HostPortOf(url).value.None? ==> r.value.MissingHostPort? && r.value.error == HostPortError
    ensures r.Success? && HostPortOf(url).value.Some? ==>
      r.value.Probe? && HostPortOf(url).value == Some(HostPort(r.value.host, r.value.port))
  {
    var parsed := ParsePostgresHostPort(url);
    if parsed.Failure? {
      return Failure(parsed.error);
    }
    var info := parsed.value;
    if info.host.None? || info.port.None? {
      return Success(MissingHostPort(info, HostPortError));
    }
    return Success(Probe(info, info.host.value, info.port.value));
  }

  // ---------------------------------------------------------------------------------------------
  // Properties of the steps

  /** A URL that starts with the prefix has as authority everything up to the first '/'. */
  lemma AuthorityAfterPrefix(a: string, tail: string)
    requires '/' !in a && (tail == [] || tail[0] == '/')
    ensures Authority(Prefix + a + tail) == Some(a)
  {
    var u := Prefix + a + tail;
    assert OccursAt(u, Prefix, 0) by {
      assert u[..|Prefix|] == Prefix;
    }
    assert IndexOf(u, Prefix) == Some(0);
    var rest := u[|Prefix|..];
    assert rest == a + tail;
    assert rest[..|a|] == a;
    assert tail != [] ==> rest[|a|] == '/';
    assert Before(rest, '/') == a;
  }

  /** A URL without the prefix has no host or port. */
  lemma NoPrefixNoHost(u: string)
    requires forall j :: 0 <= j ==> !OccursAt(u, Prefix, j)
    ensures HostPortOf(Some(u)) == Success(None)
  {
  }

  lemma SplitTwo(h: string, p: string, c: char)
    requires c !in h && c !in p && p != []
    ensures JavaSplit(h + [c] + p, c) == [h, p]
  {
    FieldsCons(h, p, c);
    assert Fields(p, c) == [p];
    assert (h + [c] + p)[|h|] == c;
  }

  /** An entry without ':' is the host, on port 5432. */
  lemma EntryWithoutPort(e: string)
    requires e != [] && e[0] != '[' && ':' !in e
    ensures EntryHostPort(e) == Success(Some(HostPort(e, DefaultPort)))
  {
  }

  /** A trailing ':' with nothing after it also leaves the port at 5432. */
  lemma EntryTrailingColon(h: string)
    requires h != [] && h[0] != '[' && ':' !in h
    ensures EntryHostPort(h + ":") == Success(Some(HostPort(h, DefaultPort)))
  {
    var e := h + ":";
    FieldsCons(h, [], ':');
    assert e == h + [':'] + [];
    assert Fields([], ':') == [[]];
    assert Fields(e, ':') == [h, []];
    assert e[|h|] == ':';
    assert DropTrailingEmpty([h, []]) == DropTrailingEmpty([h]) == [h];
  }

  /** `host:port` gives the host before the ':' and the parsed port; a port that does not parse throws. */
  lemma EntryWithPort(h: string, p: string)
    requires ':' !in h && ':' !in p && p != [] && (h == [] || h[0] != '[')
    ensures EntryHostPort(h + ":" + p) ==
      (match ParseInt(p) case None => Failure(NumberFormat) case Some(n) => Success(Some(HostPort(h, n))))
  {
    SplitTwo(h, p, ':');
  }

  /** A bracketed address not followed by ':' is the host, on port 5432. */
  lemma BracketedWithoutPort(h: string, tail: string)
    requires ']' !in h && (tail == [] || tail[0] != ':')
    ensures EntryHostPort("[" + h + "]" + tail) == Success(Some(HostPort(h, DefaultPort)))
  {
    BracketAt(h, tail);
  }

  /** A bracketed address followed by ':' takes its port from everything after the colon. */
  lemma BracketedWithPort(h: string, p: string)
    requires ']' !in h
    ensures EntryHostPort("[" + h + "]:" + p) ==
      (match ParseInt(p) case None => Failure(NumberFormat) case Some(n) => Success(Some(HostPort(h, n))))
  {
    BracketAt(h, ":" + p);
    assert "[" + h + "]:" + p == "[" + h + "]" + (":" + p);
    assert ("[" + h + "]:" + p)[|h| + 3..] == p;
  }

  lemma BracketAt(h: string, tail: string)
    requires ']' !in h
    ensures var e := "[" + h + "]" + tail;
      CharIndex(e, ']') == Some(|h| + 1) && e[1..|h| + 1] == h && |e| == |h| + 2 + |tail|
      && (|e| > |h| + 2 ==> e[|h| + 2] == tail[0])
  {
    var e := "[" + h + "]" + tail;
    assert e[|h| + 1] == ']';
    assert e[..|h| + 1] == "[" + h;
    assert ']' !in e[..|h| + 1];
  }

  /** A '[' without a matching ']' yields no host or port. */
  lemma BracketedUnclosed(e: string)
    requires e != [] && e[0] == '[' && ']' !in e
    ensures EntryHostPort(e) == Success(None)
  {
  }

  /** The complete parse of a plain single-host URL. */
  lemma ParsePlainUrl(h: string, n: nat, path: string)
    requires h != [] && IsTrimmed(h, IsTrimSpace) && h[0] != '['
    requires ':' !in h && ',' !in h && '/' !in h
    requires n <= IntMax && (path == [] || path[0] == '/')
    ensures HostPortOf(Some(Prefix + h + ":" + DecimalString(n) + path)) == Success(Some(HostPort(h, n)))
  {
    var d := DecimalString(n);
    var a := h + ":" + d;
    assert '/' !in d && ',' !in d && ':' !in d by {
      assert forall i :: 0 <= i < |d| ==> CharDigit(d[i], 10) >= 0;
    }
    assert '/' !in a;
    assert Prefix + h + ":" + d + path == Prefix + a + path;
    AuthorityAfterPrefix(a, path);
    assert Before(a, ',') == a;
    assert IsTrimmed(a, IsTrimSpace) by {
      assert a[|a| - 1] == d[|d| - 1];
      assert CharDigit(d[|d| - 1], 10) >= 0;
    }
    TrimOfTrimmed(a, IsTrimSpace);
    assert FirstEntry(a) == Some(a);
    EntryWithPort(h, d);
    ParseIntOfDecimal(n);
  }
}
