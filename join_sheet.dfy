/** The client's join sheet: a code field that keeps at most six numeric characters, a join button enabled
    for six characters while no join is running, and a dismissal once a join returns a household. */
module JoinSheets {
  import opened Wrappers
  import opened Seqs
  import opened Text
  import opened Numerals
  import opened JavaText
  import opened SwiftText
  import opened ClientApi
  import opened Tables
  import opened HouseholdSessions
  import opened HouseholdService

  const CodeSize: nat := 6

  /** The binding setter's filter: the numeric characters of the input, cut to the first six. */
  function Sanitize(newValue: string): (r: string)
    ensures |r| <= CodeSize
    ensures forall i :: 0 <= i < |r| ==> IsSwiftNumber(r[i])
    ensures |r| == if Count(newValue, IsSwiftNumber) < CodeSize then Count(newValue, IsSwiftNumber) else CodeSize
    ensures r == Filter(newValue, IsSwiftNumber)[..|r|]
  {
    Prefix(Filter(newValue, IsSwiftNumber), CodeSize)
  }

  /** Editing an already sanitised code with no change keeps it. */
  lemma SanitizeIdempotent(s: string)
    ensures Sanitize(Sanitize(s)) == Sanitize(s)
  {
    FilterAll(Sanitize(s), IsSwiftNumber);
  }

  /** Numeric characters are never white space, so the session sends a sanitised code exactly as typed. */
  lemma SanitizedIsTrimmed(s: string)
    ensures SwiftTrim(Sanitize(s)) == Sanitize(s)
    ensures JavaTrim(Sanitize(s)) == Sanitize(s)
  {
    var c := Sanitize(s);
    if c != [] {
      assert IsSwiftNumber(c[0]) && IsSwiftNumber(c[|c| - 1]);
    }
    TrimOfTrimmed(c, IsSwiftWhitespace);
    TrimOfTrimmed(c, IsTrimSpace);
  }

  /** When every numeric character typed is an ASCII digit, a six-character code is a backend home code. */
  lemma AsciiInputGivesHomeCode(s: string)
    requires forall i :: 0 <= i < |s| && IsSwiftNumber(s[i]) ==> IsAsciiDigit(s[i])
    requires |Sanitize(s)| == CodeSize
    ensures IsHomeCode(Sanitize(s))
  {
    var c := Sanitize(s);
    forall i | 0 <= i < |c| ensures IsAsciiDigit(c[i]) {
      assert c[i] == Filter(s, IsSwiftNumber)[i];
      assert c[i] in s;
    }
  }

  /** ARABIC-INDIC DIGIT ONE to SIX. */
  const ArabicIndicCode: string := "\U{0661}\U{0662}\U{0663}\U{0664}\U{0665}\U{0666}"

  /** A code the sanitiser keeps as it is, six characters long but not six ASCII digits, passes the session's
      length guard unchanged and is refused by the backend's format check. */
  lemma NonAsciiCodeRefused(st: SessionState, hs: seq<HouseholdRow>, code: string, reply: Fetch<ClientHousehold>,
                            profile: Fetch<ClientProfile>, mine: Fetch<seq<ClientHousehold>>,
                            received: Fetch<seq<ClientInvite>>)
    requires Sanitize(code) == code && |code| == CodeSize && !IsHomeCode(code)
    ensures JoinStep(st, code, reply, profile, mine, received).sent == Some(code)
    ensures JoinTarget(hs, Some(code)) == Failure(HomeCodeFormat)
  {
    SanitizedIsTrimmed(code);
  }

  /** Such codes exist: Arabic-Indic digits are numbers to Swift but not `\d` to Java. */
  lemma ArabicIndicCodeKept()
    ensures Sanitize(ArabicIndicCode) == ArabicIndicCode && |ArabicIndicCode| == CodeSize
    ensures !IsHomeCode(ArabicIndicCode)
  {
    var c := ArabicIndicCode;
    assert forall i :: 0 <= i < |c| ==> IsSwiftNumber(c[i]);
    FilterAll(c, IsSwiftNumber);
    assert !IsAsciiDigit(c[0]);
  }

  class JoinSheet {
    var homeCode: string
    var isJoining: bool
    /** Whether the sheet has called `dismiss`. */
    var dismissed: bool

    constructor()
      ensures homeCode == [] && !isJoining && !dismissed
    {
      homeCode, isJoining, dismissed := [], false, false;
    }

    /** The text field binding's setter. */
    method EditCode(newValue: string)
      modifies this`homeCode
      ensures homeCode == Sanitize(newValue)
    {
      var digits := Filter(newValue, IsSwiftNumber);
      homeCode := Prefix(digits, CodeSize);
    }

    /** The join button is enabled. */
    predicate JoinEnabled()
      reads this
    {
      !isJoining && |homeCode| == CodeSize
    }

    /** `join`: hands the code to the session and dismisses when a household comes back. */
    method Join(session: HouseholdSession, reply: Fetch<ClientHousehold>, profile: Fetch<ClientProfile>,
                mine: Fetch<seq<ClientHousehold>>, received: Fetch<seq<ClientInvite>>)
      returns (r: Option<ClientHousehold>)
      modifies this`isJoining, this`dismissed, session
      ensures var step := JoinStep(old(session.State()), homeCode, reply, profile, mine, received);
        session.State() == step.state && r == step.result
      ensures !isJoining && dismissed == (old(dismissed) || r.Some?)
    {
      isJoining := true;
      var sent;
      r, sent := session.JoinHousehold(homeCode, reply, profile, mine, received);
      isJoining := false;
      if r.Some? {
        dismissed := true;
      }
    }
  }
}
