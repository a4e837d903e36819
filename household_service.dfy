/** `HouseholdService`: creating a household with a fresh six-digit join code, joining by that code, and
    leaving, which deletes the household once nobody is left. */
module HouseholdService {
  import opened Wrappers
  import opened Seqs
  import opened Text
  import opened Numerals
  import opened JavaText
  import opened Uuids
  import opened Tables
  import opened Store
  import opened InviteService

  datatype HouseholdError = LabelRequired | CodeExhausted | HomeCodeRequired | HomeCodeFormat | InvalidHomeCode

  function Message(e: HouseholdError): string {
    match e
    case LabelRequired => "Household address (or name) is required"
    case CodeExhausted => "Could not generate unique home code"
    case HomeCodeRequired => "homeCode is required"
    case HomeCodeFormat => "homeCode must be 6 digits"
    case InvalidHomeCode => "Invalid home code"
  }

  /** The `Household` that `getHouseholdById` returns: the schema has no name column, so the name is the
      address, and the score is always 0. */
  datatype Household = Household(id: Uuid, name: string, address: string, homeCode: string, score: int)

  function View(h: HouseholdRow): (v: Household)
    ensures v.id == h.id && v.homeCode == h.homeCode
    ensures v.name == h.address && v.address == h.address && v.score == 0
  {
    Household(h.id, h.address, h.address, h.homeCode, 0)
  }

  // ---------------------------------------------------------------------------------------------
  // The label

  /** The label `createHousehold` stores: the trimmed address when it is not blank, else the trimmed name;
      `None` when neither gives a non-empty label. */
  function Label(name: Option<string>, address: Option<string>): (r: Option<string>)
    ensures r.Some? ==> r.value != [] && IsTrimmed(r.value, IsTrimSpace)
    ensures address.Some? && JavaTrim(address.value) != [] ==> r == Some(JavaTrim(address.value))
    ensures !(address.Some? && JavaTrim(address.value) != []) ==>
      && (r.Some? <==> name.Some? && JavaTrim(name.value) != [])
      && (r.Some? ==> r.value == JavaTrim(name.value))
  {
    var chosen := if address.Some? && JavaTrim(address.value) != [] then Some(JavaTrim(address.value))
                 else if name.None? then None
                 else Some(JavaTrim(name.value));
    if chosen.None? || chosen.value == [] then None
    else
      TrimmedIsTrimmed(if address.Some? && JavaTrim(address.value) != [] then address.value else name.value);
      chosen
  }

  lemma TrimmedIsTrimmed(s: string)
    ensures IsTrimmed(JavaTrim(s), IsTrimSpace)
  {
    TrimIdempotent(s, IsTrimSpace);
  }

  // ---------------------------------------------------------------------------------------------
  // Home codes

  /** Six ASCII digits: what `^\d{6}$` matches (Java's `\d` is ASCII unless asked otherwise). */
  predicate IsHomeCode(s: string) {
    |s| == 6 && forall i :: 0 <= i < 6 ==> IsAsciiDigit(s[i])
  }

  const CodeRange: nat := 1_000_000

  lemma PowSix()
    ensures Pow(10, 6) == CodeRange
  {
    assert Pow(10, 2) == 100;
    assert Pow(10, 4) == 10_000;
  }

  /** `String.format("%06d", n)` for `0 <= n < 1_000_000`. */
  function FormatCode(n: nat): (r: string)
    requires n < CodeRange
    ensures IsHomeCode(r)
  {
    FixedWidth(n, 6, 10)
  }

  /** The code reads back as the number it was formatted from, so different draws give different codes. */
  lemma FormatCodeValue(n: nat)
    requires n < CodeRange
    ensures ValueOf(FormatCode(n), 10) == n
  {
    PowSix();
    ValueOfFixedWidth(n, 6, 10);
  }

  predicate CodeFree(hs: seq<HouseholdRow>, code: string) {
    HouseholdByHomeCode(hs, code).None?
  }

  /** The random draws `nextInt(0, 1_000_000)` makes, supplied in advance; 25 are enough. */
  predicate Draws(draws: seq<int>) {
    |draws| >= 25 && forall i :: 0 <= i < |draws| ==> 0 <= draws[i] < CodeRange
  }

  /** `generateUniqueHomeCode` from attempt `i` on: the first of the remaining 25 draws whose code is free. */
  function FirstFreeCode(hs: seq<HouseholdRow>, draws: seq<int>, i: nat): Result<string, HouseholdError>
    requires Draws(draws)
    decreases 25 - i
  {
    if i >= 25 then Failure(CodeExhausted)
    else
      var code := FormatCode(draws[i]);
      if CodeFree(hs, code) then Success(code) else FirstFreeCode(hs, draws, i + 1)
  }

  /** A code found from attempt `i` on is six digits, unused and one of the remaining draws. */
  lemma {:induction false} FirstFreeCodeFound(hs: seq<HouseholdRow>, draws: seq<int>, i: nat)
    requires Draws(draws)
    requires FirstFreeCode(hs, draws, i).Success?
    decreases 25 - i
    ensures IsHomeCode(FirstFreeCode(hs, draws, i).value) && CodeFree(hs, FirstFreeCode(hs, draws, i).value)
    ensures exists j :: i <= j < 25 && FirstFreeCode(hs, draws, i).value == FormatCode(draws[j])
  {
    var code := FormatCode(draws[i]);
    if CodeFree(hs, code) {
      assert FirstFreeCode(hs, draws, i) == Success(code);
    } else {
      assert FirstFreeCode(hs, draws, i) == FirstFreeCode(hs, draws, i + 1);
      FirstFreeCodeFound(hs, draws, i + 1);
      var j :| i + 1 <= j < 25 && FirstFreeCode(hs, draws, i + 1).value == FormatCode(draws[j]);
    }
  }

  /** The search can only fail with the exhaustion error. */
  lemma {:induction false} FirstFreeCodeError(hs: seq<HouseholdRow>, draws: seq<int>, i: nat)
    requires Draws(draws)
    decreases 25 - i
    ensures FirstFreeCode(hs, draws, i).Failure? ==> FirstFreeCode(hs, draws, i).error == CodeExhausted
  {
    if i < 25 && !CodeFree(hs, FormatCode(draws[i])) {
      assert FirstFreeCode(hs, draws, i) == FirstFreeCode(hs, draws, i + 1);
      FirstFreeCodeError(hs, draws, i + 1);
    }
  }

  /** The search fails exactly when every remaining draw collides. */
  lemma {:induction false} FirstFreeCodeExhausted(hs: seq<HouseholdRow>, draws: seq<int>, i: nat)
    requires Draws(draws)
    decreases 25 - i
    ensures FirstFreeCode(hs, draws, i).Failure? <==> forall j :: i <= j < 25 ==> !CodeFree(hs, FormatCode(draws[j]))
  {
    if i < 25 {
      var code := FormatCode(draws[i]);
      if CodeFree(hs, code) {
        assert FirstFreeCode(hs, draws, i) == Success(code);
      } else {
        assert FirstFreeCode(hs, draws, i) == FirstFreeCode(hs, draws, i + 1);
        FirstFreeCodeExhausted(hs, draws, i + 1);
        assert (forall j :: i <= j < 25 ==> !CodeFree(hs, FormatCode(draws[j])))
           <==> (forall j :: i + 1 <= j < 25 ==> !CodeFree(hs, FormatCode(draws[j])));
      }
    }
  }

  method GenerateUniqueHomeCode(hs: seq<HouseholdRow>, draws: seq<int>) returns (r: Result<string, HouseholdError>)
    requires Draws(draws)
    ensures r == FirstFreeCode(hs, draws, 0)
  {
    var i := 0;
    while i < 25
      invariant 0 <= i <= 25
      invariant FirstFreeCode(hs, draws, i) == FirstFreeCode(hs, draws, 0)
    {
      var code := FormatCode(draws[i]);
      if HouseholdByHomeCode(hs, code).None? {
        return Success(code);
      }
      i := i + 1;
    }
    return Failure(CodeExhausted);
  }

  // ---------------------------------------------------------------------------------------------
  // createHousehold

  /** The row `createHousehold` inserts, or why it fails. */
  function NewHouseholdRow(hs: seq<HouseholdRow>, name: Option<string>, address: Option<string>, newId: Uuid,
                           draws: seq<int>): Result<HouseholdRow, HouseholdError>
    requires Draws(draws)
  {
    var chosen := Label(name, address);
    if chosen.None? then Failure(LabelRequired)
    else
      match FirstFreeCode(hs, draws, 0)
      case Failure(e) => Failure(e)
      case Success(code) => Success(HouseholdRow(newId, chosen.value, code))
  }

  /** `createHousehold`; `newId` is the fresh id. The household returned is the one read back by id. */
  method CreateHousehold(db: Database, name: Option<string>, address: Option<string>, newId: Uuid, draws: seq<int>)
    returns (r: Result<Household, HouseholdError>)
    requires Draws(draws)
    modifies db`households
    ensures NewHouseholdRow(old(db.households), name, address, newId, draws).Failure? ==>
      && r == Failure(NewHouseholdRow(old(db.households), name, address, newId, draws).error)
      && db.households == old(db.households)
    ensures NewHouseholdRow(old(db.households), name, address, newId, draws).Success? ==>
      && db.households == old(db.households) + [NewHouseholdRow(old(db.households), name, address, newId, draws).value]
      && HouseholdById(db.households, newId).Some?
      && r == Success(View(HouseholdById(db.households, newId).value))
  {
    var chosen := if address.Some? && JavaTrim(address.value) != [] then Some(JavaTrim(address.value))
                 else if name.None? then None
                 else Some(JavaTrim(name.value));
    if chosen.None? || chosen.value == [] {
      return Failure(LabelRequired);
    }
    var code := GenerateUniqueHomeCode(db.households, draws);
    if code.Failure? {
      return Failure(code.error);
    }
    var row := HouseholdRow(newId, chosen.value, code.value);
    db.households := db.households + [row];
    assert db.households[|db.households| - 1] == row;
    var created := HouseholdById(db.households, newId);
    return Success(View(created.value));
  }

  /** With a fresh id the household read back is the new one: name and address are the chosen, the score 0,
      and the code a free six-digit code. */
  lemma {:induction false} CreatedHousehold(hs: seq<HouseholdRow>, name: Option<string>, address: Option<string>,
                                            newId: Uuid, draws: seq<int>)
    requires Draws(draws)
    requires forall i :: 0 <= i < |hs| ==> hs[i].id != newId
    requires NewHouseholdRow(hs, name, address, newId, draws).Success?
    ensures
      var row := NewHouseholdRow(hs, name, address, newId, draws).value;
      && HouseholdById(hs + [row], newId) == Some(row)
      && View(row).name == Label(name, address).value && View(row).address == Label(name, address).value
      && View(row).score == 0
      && IsHomeCode(row.homeCode) && CodeFree(hs, row.homeCode)
  {
    var row := NewHouseholdRow(hs, name, address, newId, draws).value;
    FirstFreeCodeFound(hs, draws, 0);
    FirstMatchAt(hs + [row], (h: HouseholdRow) => h.id == newId, |hs|);
  }

  // ---------------------------------------------------------------------------------------------
  // joinHouseholdByHomeCode and addMember

  /** The household a join targets, or why the join fails. */
  function JoinTarget(hs: seq<HouseholdRow>, homeCode: Option<string>): (r: Result<HouseholdRow, HouseholdError>)
    ensures r.Success? ==> r.value in hs && IsHomeCode(r.value.homeCode)
  {
    if homeCode.None? then Failure(HomeCodeRequired)
    else
      var code := JavaTrim(homeCode.value);
      if !IsHomeCode(code) then Failure(HomeCodeFormat)
      else
        match HouseholdByHomeCode(hs, code)
        case None => Failure(InvalidHomeCode)
        case Some(h) => Success(h)
  }

  /** `addMember`: always a new row, even for a profile that is already a member. */
  method AddMember(db: Database, householdId: Uuid, profileId: Uuid)
    modifies db`members
    ensures db.members == old(db.members) + [Membership(householdId, profileId)]
  {
    db.members := db.members + [Membership(householdId, profileId)];
  }

  lemma {:induction false} AddMemberCounts(ms: seq<Membership>, householdId: Uuid, profileId: Uuid)
    ensures MemberCount(ms + [Membership(householdId, profileId)], householdId) == MemberCount(ms, householdId) + 1
  {
    FilterSnoc(ms, Membership(householdId, profileId), (m: Membership) => m.householdId == householdId);
  }

  /** `joinHouseholdByHomeCode`. */
  method JoinHouseholdByHomeCode(db: Database, profileId: Uuid, homeCode: Option<string>)
    returns (r: Result<Household, HouseholdError>)
    modifies db`members
    ensures JoinTarget(db.households, homeCode).Failure? ==>
      r == Failure(JoinTarget(db.households, homeCode).error) && db.members == old(db.members)
    ensures JoinTarget(db.households, homeCode).Success? ==>
      var h := JoinTarget(db.households, homeCode).value;
      && db.members == old(db.members) + [Membership(h.id, profileId)]
      && HouseholdById(db.households, h.id).Some?
      && r == Success(View(HouseholdById(db.households, h.id).value))
  {
    if homeCode.None? {
      return Failure(HomeCodeRequired);
    }
    var code := JavaTrim(homeCode.value);
    if !IsHomeCode(code) {
      return Failure(HomeCodeFormat);
    }
    var household := HouseholdByHomeCode(db.households, code);
    if household.None? {
      return Failure(InvalidHomeCode);
    }
    AddMember(db, household.value.id, profileId);
    var joined := HouseholdById(db.households, household.value.id);
    return Success(View(joined.value));
  }

  /** A code that does not trim to six ASCII digits is refused before any lookup. */
  lemma JoinRejectsMalformed(hs: seq<HouseholdRow>, homeCode: string)
    requires !IsHomeCode(JavaTrim(homeCode))
    ensures JoinTarget(hs, Some(homeCode)) == Failure(HomeCodeFormat)
  {
  }

  /** Surrounding spaces are ignored, and a code no household has is refused as invalid. */
  lemma JoinPaddedCode(hs: seq<HouseholdRow>, pre: string, code: string, post: string)
    requires IsHomeCode(code) && AllOf(pre, IsTrimSpace) && AllOf(post, IsTrimSpace)
    ensures JoinTarget(hs, Some(pre + code + post)) ==
      (if CodeFree(hs, code) then Failure(InvalidHomeCode) else Success(HouseholdByHomeCode(hs, code).value))
  {
    TrimPadded(pre, code, post, IsTrimSpace);
  }

  // ---------------------------------------------------------------------------------------------
  // createHouseholdAndInvite

  /** The invites created for the first `n` roommate emails, one per non-blank email, in list order. */
  function NewInvites(profiles: seq<Profile>, householdId: Uuid, creator: Uuid, emails: seq<Option<string>>,
                      inviteIds: seq<Uuid>, n: nat): (r: seq<Invite>)
    requires n <= |emails| <= |inviteIds|
    ensures |r| <= n
    ensures AllPendingFrom(r, householdId, creator)
  {
    if n == 0 then []
    else
      var done := NewInvites(profiles, householdId, creator, emails, inviteIds, n - 1);
      var next := OptionToSeq(NewInvite(profiles, householdId, creator, emails[n - 1], inviteIds[n - 1]));
      NextInvitePending(profiles, householdId, creator, emails[n - 1], inviteIds[n - 1]);
      AllPendingFromAppend(done, next, householdId, creator);
      done + next
  }

  lemma NewInvitesUnfold(profiles: seq<Profile>, householdId: Uuid, creator: Uuid, emails: seq<Option<string>>,
                         inviteIds: seq<Uuid>, n: nat)
    requires 0 < n <= |emails| <= |inviteIds|
    ensures NewInvites(profiles, householdId, creator, emails, inviteIds, n) ==
      NewInvites(profiles, householdId, creator, emails, inviteIds, n - 1) +
      OptionToSeq(NewInvite(profiles, householdId, creator, emails[n - 1], inviteIds[n - 1]))
  {
  }

  /** `createHouseholdAndInvite`: create the household, make the creator a member, then invite each email. */
  method CreateHouseholdAndInvite(db: Database, creator: Uuid, name: Option<string>, address: Option<string>,
                                  roommateEmails: Option<seq<Option<string>>>, newId: Uuid, draws: seq<int>,
                                  inviteIds: seq<Uuid>)
    returns (r: Result<Household, HouseholdError>)
    requires Draws(draws)
    requires roommateEmails.Some? ==> |inviteIds| >= |roommateEmails.value|
    modifies db`households, db`members, db`invites
    ensures NewHouseholdRow(old(db.households), name, address, newId, draws).Failure? ==>
      && r == Failure(NewHouseholdRow(old(db.households), name, address, newId, draws).error)
      && db.households == old(db.households) && db.members == old(db.members) && db.invites == old(db.invites)
    ensures NewHouseholdRow(old(db.households), name, address, newId, draws).Success? ==>
      && db.households == old(db.households) + [NewHouseholdRow(old(db.households), name, address, newId, draws).value]
      && HouseholdById(db.households, newId).Some?
      && r == Success(View(HouseholdById(db.households, newId).value))
      && db.members == old(db.members) + [Membership(newId, creator)]
      && db.invites == old(db.invites) + RoommateInvites(db.profiles, newId, creator, roommateEmails, inviteIds)
  {
    ghost var row := NewHouseholdRow(db.households, name, address, newId, draws);
    r := CreateHousehold(db, name, address, newId, draws);
    assert db.members == old(db.members) && db.invites == old(db.invites);
    if r.Failure? {
      return;
    }
    assert row.Success? && r.value.id == newId;
    ghost var households := db.households;
    ghost var created := r;
    AdmitCreator(db, r.value.id, creator, roommateEmails, inviteIds);
    assert db.households == households && r == created;
  }

  /** The invites `createHouseholdAndInvite` sends: none for a null list, else one per non-blank email. */
  function RoommateInvites(profiles: seq<Profile>, householdId: Uuid, creator: Uuid,
                           roommateEmails: Option<seq<Option<string>>>, inviteIds: seq<Uuid>): (r: seq<Invite>)
    requires roommateEmails.Some? ==> |inviteIds| >= |roommateEmails.value|
  {
    if roommateEmails.None? then []
    else NewInvites(profiles, householdId, creator, roommateEmails.value, inviteIds, |roommateEmails.value|)
  }

  /** The second half of `createHouseholdAndInvite`: the creator joins, then each roommate email is invited. */
  method AdmitCreator(db: Database, householdId: Uuid, creator: Uuid, roommateEmails: Option<seq<Option<string>>>,
                      inviteIds: seq<Uuid>)
    requires roommateEmails.Some? ==> |inviteIds| >= |roommateEmails.value|
    modifies db`members, db`invites
    ensures db.members == old(db.members) + [Membership(householdId, creator)]
    ensures db.invites == old(db.invites) + RoommateInvites(db.profiles, householdId, creator, roommateEmails, inviteIds)
  {
    AddMember(db, householdId, creator);
    assert db.invites == old(db.invites);
    if roommateEmails.Some? {
      ghost var members := db.members;
      InviteAll(db, householdId, creator, roommateEmails.value, inviteIds);
      assert db.members == members;
    }
  }

  /** One turn of the invitation loop: appending the next email's invite extends the prefix by one email. */
  lemma NewInvitesStep(profiles: seq<Profile>, householdId: Uuid, creator: Uuid, emails: seq<Option<string>>,
                       inviteIds: seq<Uuid>, i: nat, base: seq<Invite>, before: seq<Invite>, after: seq<Invite>)
    requires i < |emails| <= |inviteIds|
    requires before == base + NewInvites(profiles, householdId, creator, emails, inviteIds, i)
    requires after == before + OptionToSeq(NewInvite(profiles, householdId, creator, emails[i], inviteIds[i]))
    ensures after == base + NewInvites(profiles, householdId, creator, emails, inviteIds, i + 1)
  {
    var done := NewInvites(profiles, householdId, creator, emails, inviteIds, i);
    var next := OptionToSeq(NewInvite(profiles, householdId, creator, emails[i], inviteIds[i]));
    NewInvitesUnfold(profiles, householdId, creator, emails, inviteIds, i + 1);
    assert (base + done) + next == base + (done + next);
  }

  /** One turn of the invitation loop: invite the `i`-th email. */
  method InviteNext(db: Database, householdId: Uuid, creator: Uuid, emails: seq<Option<string>>, inviteIds: seq<Uuid>,
                    i: nat, ghost base: seq<Invite>)
    requires i < |emails| <= |inviteIds|
    requires db.invites == base + NewInvites(db.profiles, householdId, creator, emails, inviteIds, i)
    modifies db`invites
    ensures db.invites == base + NewInvites(db.profiles, householdId, creator, emails, inviteIds, i + 1)
  {
    ghost var before := db.invites;
    InviteByEmail(db, householdId, creator, emails[i], inviteIds[i]);
    NewInvitesStep(db.profiles, householdId, creator, emails, inviteIds, i, base, before, db.invites);
  }

  /** The invitation loop of `createHouseholdAndInvite`. */
  method InviteAll(db: Database, householdId: Uuid, creator: Uuid, emails: seq<Option<string>>, inviteIds: seq<Uuid>)
    requires |inviteIds| >= |emails|
    modifies db`invites
    ensures db.invites == old(db.invites) + NewInvites(db.profiles, householdId, creator, emails, inviteIds, |emails|)
  {
    ghost var base := db.invites;
    var i := 0;
    while i < |emails|
      invariant 0 <= i <= |emails|
      invariant db.invites == base + NewInvites(db.profiles, householdId, creator, emails, inviteIds, i)
    {
      InviteNext(db, householdId, creator, emails, inviteIds, i, base);
      i := i + 1;
    }
  }

  // ---------------------------------------------------------------------------------------------
  // leaveHousehold

  /** The households after `profileId` leaves `householdId`: deleted exactly when no membership row is left. */
  function HouseholdsAfterLeave(hs: seq<HouseholdRow>, ms: seq<Membership>, householdId: Uuid, profileId: Uuid)
    : seq<HouseholdRow>
  {
    if MemberCount(RemoveMember(ms, householdId, profileId), householdId) == 0 then DeleteHousehold(hs, householdId)
    else hs
  }

  method LeaveHousehold(db: Database, householdId: Uuid, profileId: Uuid)
    modifies db`members, db`households
    ensures db.members == RemoveMember(old(db.members), householdId, profileId)
    ensures db.households == HouseholdsAfterLeave(old(db.households), old(db.members), householdId, profileId)
  {
    db.members := RemoveMember(db.members, householdId, profileId);
    var remainingMembers := MemberCount(db.members, householdId);
    if remainingMembers == 0 {
      db.households := DeleteHousehold(db.households, householdId);
    }
  }

  /** No row for this household is left after the leave exactly when every row for it was the leaver's. */
  lemma {:induction false} LeaverWasLast(ms: seq<Membership>, householdId: Uuid, profileId: Uuid)
    ensures MemberCount(RemoveMember(ms, householdId, profileId), householdId) == 0 <==>
      forall i :: 0 <= i < |ms| && ms[i].householdId == householdId ==> ms[i].profileId == profileId
  {
    var rest := RemoveMember(ms, householdId, profileId);
    var rows := MemberRows(rest, householdId);
    if |rows| == 0 {
      forall i | 0 <= i < |ms| && ms[i].householdId == householdId ensures ms[i].profileId == profileId {
      }
    } else {
      assert rows[0] in rest;
      var k :| 0 <= k < |rest| && rest[k] == rows[0];
      assert rest[k] in ms;
      var j :| 0 <= j < |ms| && ms[j] == rest[k];
      assert ms[j].householdId == householdId && ms[j].profileId != profileId;
    }
  }

  /** The household disappears exactly when the leaver was its only member; other households always stay. */
  lemma LeaveDeletesOnlyWhenEmpty(hs: seq<HouseholdRow>, ms: seq<Membership>, householdId: Uuid, profileId: Uuid)
    requires HouseholdById(hs, householdId).Some?
    ensures HouseholdById(HouseholdsAfterLeave(hs, ms, householdId, profileId), householdId).None? <==>
      forall i :: 0 <= i < |ms| && ms[i].householdId == householdId ==> ms[i].profileId == profileId
    ensures forall i :: 0 <= i < |hs| && hs[i].id != householdId ==> hs[i] in HouseholdsAfterLeave(hs, ms, householdId, profileId)
  {
    LeaverWasLast(ms, householdId, profileId);
  }
}
