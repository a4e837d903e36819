/** The profile page's derived values: the invites it lists, the name and email it shows and the score. */
module ProfilePage {
  import opened Wrappers
  import opened Seqs
  import opened SwiftText
  import opened Uuids
  import opened ClientApi

  /** Not sent by the signed-in user (when known) and, with a household selected, for that household. */
  predicate Shown(v: ClientInvite, meId: Option<Uuid>, selectedId: Option<Uuid>) {
    (meId.None? || v.inviterProfileId != meId.value) && (selectedId.None? || v.householdId == selectedId.value)
  }

  /** `invitesToShow`: the received invites, narrowed to the selected household when there is one. */
  function InvitesToShow(invites: seq<ClientInvite>, meId: Option<Uuid>, selectedId: Option<Uuid>): (r: seq<ClientInvite>)
    ensures IsSubsequence(r, invites)
    ensures forall i :: 0 <= i < |r| ==> r[i] in invites && Shown(r[i], meId, selectedId)
    ensures forall i :: 0 <= i < |invites| && Shown(invites[i], meId, selectedId) ==> invites[i] in r
  {
    var receivedOnly := Filter(invites, (v: ClientInvite) => meId.None? || v.inviterProfileId != meId.value);
    if selectedId.Some? then
      var r := Filter(receivedOnly, (v: ClientInvite) => v.householdId == selectedId.value);
      FilterFilter(invites, (v: ClientInvite) => meId.None? || v.inviterProfileId != meId.value,
                   (v: ClientInvite) => Shown(v, meId, selectedId));
      assert r == Filter(invites, (v: ClientInvite) => Shown(v, meId, selectedId)) by {
        assert Filter(receivedOnly, (v: ClientInvite) => v.householdId == selectedId.value) ==
               Filter(receivedOnly, (v: ClientInvite) => Shown(v, meId, selectedId)) by {
          FilterSame(receivedOnly, (v: ClientInvite) => v.householdId == selectedId.value,
                     (v: ClientInvite) => Shown(v, meId, selectedId));
        }
      }
      r
    else receivedOnly
  }

  /** Two tests that agree on every element filter alike. */
  lemma {:induction false} FilterSame<T>(s: seq<T>, p: T -> bool, q: T -> bool)
    requires forall i :: 0 <= i < |s| ==> p(s[i]) == q(s[i])
    ensures Filter(s, p) == Filter(s, q)
  {
    if s != [] {
      FilterSame(s[1..], p, q);
    }
  }

  /** `[a, b].filter { !$0.isEmpty }.joined(separator: " ")`. */
  function JoinSpaced(parts: seq<string>): string {
    if parts == [] then "" else if |parts| == 1 then parts[0] else parts[0] + " " + JoinSpaced(parts[1..])
  }

  function TrimmedOr(s: Option<string>): string {
    if s.None? then "" else SwiftTrim(s.value)
  }

  function FirstName(me: Option<ClientProfile>): string {
    if me.None? then "" else TrimmedOr(me.value.firstName)
  }

  function LastName(me: Option<ClientProfile>): string {
    if me.None? then "" else TrimmedOr(me.value.lastName)
  }

  /** The non-empty ones of two names, joined with a single space. */
  function FullName(a: string, b: string): (r: string)
    ensures a != [] && b != [] ==> r == a + " " + b
    ensures a != [] && b == [] ==> r == a
    ensures a == [] ==> r == b
  {
    NonEmptyPair(a, b);
    var nonEmpty := Filter([a, b], (s: string) => s != []);
    assert a != [] && b != [] ==> JoinSpaced(nonEmpty) == a + " " + b by {
      if a != [] && b != [] {
        assert nonEmpty == [a, b] && nonEmpty[1..] == [b];
        assert JoinSpaced([b]) == b;
      }
    }
    JoinSpaced(nonEmpty)
  }

  /** `displayName`: the non-empty trimmed names, space-separated, or "Profile" when both are empty. */
  function DisplayName(me: Option<ClientProfile>): (r: string)
    ensures FirstName(me) != [] && LastName(me) != [] ==> r == FirstName(me) + " " + LastName(me)
    ensures FirstName(me) != [] && LastName(me) == [] ==> r == FirstName(me)
    ensures FirstName(me) == [] && LastName(me) != [] ==> r == LastName(me)
    ensures FirstName(me) == [] && LastName(me) == [] ==> r == "Profile"
  {
    var full := FullName(FirstName(me), LastName(me));
    if full == [] then "Profile" else full
  }

  lemma NonEmptyPair(a: string, b: string)
    ensures Filter([a, b], (s: string) => s != []) == (if a != [] then [a] else []) + (if b != [] then [b] else [])
  {
    assert [a, b] == [a] + [b];
    FilterAppend([a], [b], (s: string) => s != []);
    assert [a][1..] == [] && [b][1..] == [];
  }

  const EmailPlaceholder: string := "Manage your account settings"

  /** `displayEmail`: the trimmed backend email, else the trimmed sign-in email, else the placeholder. */
  function DisplayEmail(me: Option<ClientProfile>, authEmail: Option<string>): (r: string)
    ensures r != []
    ensures me.Some? && TrimmedOr(me.value.email) != [] ==> r == TrimmedOr(me.value.email)
    ensures !(me.Some? && TrimmedOr(me.value.email) != []) && TrimmedOr(authEmail) != [] ==> r == TrimmedOr(authEmail)
    ensures !(me.Some? && TrimmedOr(me.value.email) != []) && TrimmedOr(authEmail) == [] ==> r == EmailPlaceholder
  {
    var backendEmail := if me.None? then "" else TrimmedOr(me.value.email);
    if backendEmail != [] then backendEmail
    else
      var supabaseEmail := SwiftTrim(authEmail.GetOr(""));
      if supabaseEmail == [] then EmailPlaceholder else supabaseEmail
  }

  /** `userScoreValue`: the profile's score, 0 when the profile or its score is missing. */
  function UserScoreValue(me: Option<ClientProfile>): (r: int)
    ensures me.Some? && me.value.userScore.Some? ==> r == me.value.userScore.value
    ensures me.None? || me.value.userScore.None? ==> r == 0
  {
    if me.None? then 0 else me.value.userScore.GetOr(0)
  }
}
