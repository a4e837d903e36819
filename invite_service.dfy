/** `HouseholdInviteService`: an invite is created pending and then accepted or declined by its invitee. */
module InviteService {
  import opened Wrappers
  import opened Seqs
  import opened Text
  import opened JavaText
  import opened Uuids
  import opened Tables
  import opened Store

  datatype InviteError = InviteNotFound | ProfileNotFound | NotAuthorizedToAccept | NotAuthorizedToDecline

  function Message(e: InviteError): string {
    match e
    case InviteNotFound => "Invite not found"
    case ProfileNotFound => "Profile not found"
    case NotAuthorizedToAccept => "You are not authorized to accept this invite"
    case NotAuthorizedToDecline => "You are not authorized to decline this invite"
  }

  /** The invite `inviteByEmail` creates, or `None` when the email is null or blank after trimming. */
  function NewInvite(profiles: seq<Profile>, householdId: Uuid, inviterProfileId: Uuid, email: Option<string>, newId: Uuid)
    : Option<Invite>
  {
    if email.None? then None
    else
      var trimmed := JavaTrim(email.value);
      if trimmed == [] then None
      else
        var invitee := ProfileByEmail(profiles, trimmed);
        Some(Invite(newId, householdId, inviterProfileId,
                    if invitee.None? then None else Some(invitee.value.id), Some(trimmed), Pending))
  }

  /** A created invite is pending, for the given household, from the given inviter. */
  lemma NewInviteHeader(profiles: seq<Profile>, householdId: Uuid, inviterProfileId: Uuid, email: Option<string>,
                        newId: Uuid)
    requires NewInvite(profiles, householdId, inviterProfileId, email, newId).Some?
    ensures var v := NewInvite(profiles, householdId, inviterProfileId, email, newId).value;
      v.householdId == householdId && v.inviterProfileId == inviterProfileId && v.status == Pending
  {
  }

  predicate PendingFrom(invite: Invite, householdId: Uuid, creator: Uuid) {
    invite.householdId == householdId && invite.inviterProfileId == creator && invite.status == Pending
  }

  /** Every invite in `invs` is pending, for `householdId`, from `creator`. */
  predicate AllPendingFrom(invs: seq<Invite>, householdId: Uuid, creator: Uuid) {
    forall k :: 0 <= k < |invs| ==> PendingFrom(invs[k], householdId, creator)
  }

  lemma AllPendingFromAppend(a: seq<Invite>, b: seq<Invite>, householdId: Uuid, creator: Uuid)
    ensures AllPendingFrom(a, householdId, creator) && AllPendingFrom(b, householdId, creator) ==>
      AllPendingFrom(a + b, householdId, creator)
  {
    if AllPendingFrom(a, householdId, creator) && AllPendingFrom(b, householdId, creator) {
      forall k | 0 <= k < |a + b| ensures PendingFrom((a + b)[k], householdId, creator) {
        if k < |a| { assert (a + b)[k] == a[k]; } else { assert (a + b)[k] == b[k - |a|]; }
      }
    }
  }

  lemma NextInvitePending(profiles: seq<Profile>, householdId: Uuid, creator: Uuid, email: Option<string>, newId: Uuid)
    ensures AllPendingFrom(OptionToSeq(NewInvite(profiles, householdId, creator, email, newId)), householdId, creator)
  {
    var v := NewInvite(profiles, householdId, creator, email, newId);
    if v.Some? {
      NewInviteHeader(profiles, householdId, creator, email, newId);
      assert OptionToSeq(v) == [v.value];
    }
  }

  /** No invite for a null or blank email; otherwise a pending invite for the trimmed email that names the
      profile registered under that email, if there is one. */
  lemma NewInviteContents(profiles: seq<Profile>, householdId: Uuid, inviterProfileId: Uuid, email: Option<string>,
                          newId: Uuid)
    ensures
      var r := NewInvite(profiles, householdId, inviterProfileId, email, newId);
      && (r.None? <==> email.None? || JavaTrim(email.value) == [])
      && (r.Some? ==>
        && r.value.id == newId && r.value.householdId == householdId && r.value.inviterProfileId == inviterProfileId
        && r.value.inviteeEmail == Some(JavaTrim(email.value)) && r.value.status == Pending
        && (r.value.inviteeProfileId.None? <==> ProfileByEmail(profiles, JavaTrim(email.value)).None?)
        && (r.value.inviteeProfileId.Some? ==>
              exists p :: p in profiles && p.id == r.value.inviteeProfileId.value
                && EmailMatches(p, JavaTrim(email.value))))
  {
  }

  /** `inviteByEmail`; `newId` is the fresh invite id. */
  method InviteByEmail(db: Database, householdId: Uuid, inviterProfileId: Uuid, email: Option<string>, newId: Uuid)
    modifies db`invites
    ensures db.invites == old(db.invites) + OptionToSeq(NewInvite(db.profiles, householdId, inviterProfileId, email, newId))
  {
    if email.None? {
      return;
    }
    var trimmed := JavaTrim(email.value);
    if trimmed == [] {
      return;
    }
    var invitee := ProfileByEmail(db.profiles, trimmed);
    var invite := Invite(newId, householdId, inviterProfileId,
                         if invitee.None? then None else Some(invitee.value.id), Some(trimmed), Pending);
    db.invites := db.invites + [invite];
  }

  /** The authorisation shared by accept and decline: the actor is the invitee by id, or by email ignoring case. */
  predicate IsInvitee(invite: Invite, actorId: Uuid, actorEmail: Option<string>) {
    || (invite.inviteeProfileId.Some? && invite.inviteeProfileId.value == actorId)
    || (invite.inviteeEmail.Some? && actorEmail.Some? && EqualsIgnoreCase(invite.inviteeEmail.value, actorEmail.value))
  }

  /** Why accepting (or declining) fails, in the order the checks run. */
  function ResponseError(invites: seq<Invite>, profiles: seq<Profile>, inviteId: Uuid, actorId: Uuid, accepting: bool)
    : Option<InviteError>
  {
    var invite := InviteById(invites, inviteId);
    if invite.None? then Some(InviteNotFound)
    else
      var actor := ProfileById(profiles, actorId);
      if actor.None? then Some(ProfileNotFound)
      else if !IsInvitee(invite.value, actorId, actor.value.email) then
        Some(if accepting then NotAuthorizedToAccept else NotAuthorizedToDecline)
      else None
  }

  /** A response goes through exactly when the invite and the actor exist and the actor is the invitee. */
  lemma ResponseAllowed(invites: seq<Invite>, profiles: seq<Profile>, inviteId: Uuid, actorId: Uuid, accepting: bool)
    ensures ResponseError(invites, profiles, inviteId, actorId, accepting).None? <==>
      && InviteById(invites, inviteId).Some?
      && ProfileById(profiles, actorId).Some?
      && IsInvitee(InviteById(invites, inviteId).value, actorId, ProfileById(profiles, actorId).value.email)
  {
  }

  /** Nobody but the invitee gets past the check: someone whose id and email both differ is refused. */
  lemma StrangerRefused(invites: seq<Invite>, profiles: seq<Profile>, inviteId: Uuid, actorId: Uuid, accepting: bool)
    requires InviteById(invites, inviteId).Some? && ProfileById(profiles, actorId).Some?
    requires InviteById(invites, inviteId).value.inviteeProfileId != Some(actorId)
    requires ProfileById(profiles, actorId).value.email.None?
    ensures ResponseError(invites, profiles, inviteId, actorId, accepting)
         == Some(if accepting then NotAuthorizedToAccept else NotAuthorizedToDecline)
  {
  }

  /** `acceptInvite`: mark the invite accepted and add the acceptor to the invite's household. */
  method AcceptInvite(db: Database, inviteId: Uuid, actorId: Uuid) returns (r: Outcome<InviteError>)
    modifies db`invites, db`members
    ensures ResponseError(old(db.invites), db.profiles, inviteId, actorId, true).Some? ==>
      && r == Fail(ResponseError(old(db.invites), db.profiles, inviteId, actorId, true).value)
      && db.invites == old(db.invites) && db.members == old(db.members)
    ensures ResponseError(old(db.invites), db.profiles, inviteId, actorId, true).None? ==>
      && r == Pass
      && db.invites == SetInviteStatus(old(db.invites), inviteId, Accepted)
      && db.members == old(db.members) + [Membership(InviteById(old(db.invites), inviteId).value.householdId, actorId)]
  {
    var invite := InviteById(db.invites, inviteId);
    if invite.None? {
      return Fail(InviteNotFound);
    }
    var acceptor := ProfileById(db.profiles, actorId);
    if acceptor.None? {
      return Fail(ProfileNotFound);
    }
    var isInvitee := IsInvitee(invite.value, actorId, acceptor.value.email);
    if !isInvitee {
      return Fail(NotAuthorizedToAccept);
    }
    db.invites := SetInviteStatus(db.invites, inviteId, Accepted);
    db.members := db.members + [Membership(invite.value.householdId, actorId)];
    return Pass;
  }

  /** `declineInvite`: mark the invite declined; memberships are not touched. */
  method DeclineInvite(db: Database, inviteId: Uuid, actorId: Uuid) returns (r: Outcome<InviteError>)
    modifies db`invites
    ensures ResponseError(old(db.invites), db.profiles, inviteId, actorId, false).Some? ==>
      && r == Fail(ResponseError(old(db.invites), db.profiles, inviteId, actorId, false).value)
      && db.invites == old(db.invites)
    ensures ResponseError(old(db.invites), db.profiles, inviteId, actorId, false).None? ==>
      r == Pass && db.invites == SetInviteStatus(old(db.invites), inviteId, Declined)
  {
    var invite := InviteById(db.invites, inviteId);
    if invite.None? {
      return Fail(InviteNotFound);
    }
    var decliner := ProfileById(db.profiles, actorId);
    if decliner.None? {
      return Fail(ProfileNotFound);
    }
    var isInvitee := IsInvitee(invite.value, actorId, decliner.value.email);
    if !isInvitee {
      return Fail(NotAuthorizedToDecline);
    }
    db.invites := SetInviteStatus(db.invites, inviteId, Declined);
    return Pass;
  }

  /** The status is never consulted: an invite that could be accepted still can be once it has been accepted
      or declined, so accepting twice passes both times. */
  lemma RespondingKeepsAuthorisation(invites: seq<Invite>, profiles: seq<Profile>, inviteId: Uuid, actorId: Uuid,
                                     status: InviteStatus, accepting: bool)
    requires ResponseError(invites, profiles, inviteId, actorId, accepting).None?
    ensures ResponseError(SetInviteStatus(invites, inviteId, status), profiles, inviteId, actorId, accepting).None?
    ensures InviteById(SetInviteStatus(invites, inviteId, status), inviteId).value.householdId
         == InviteById(invites, inviteId).value.householdId
  {
    var v := InviteById(invites, inviteId).value;
    var after := SetInviteStatus(invites, inviteId, status);
    InviteByIdAfterStatus(invites, inviteId, status);
    assert InviteById(after, inviteId) == Some(v.(status := status));
    assert IsInvitee(v.(status := status), actorId, ProfileById(profiles, actorId).value.email);
  }

  /** Each acceptance adds a membership row, without a duplicate check: accepting twice adds two. */
  lemma {:induction false} AcceptTwiceAddsTwo(members: seq<Membership>, m: Membership)
    ensures MemberCount(members + [m] + [m], m.householdId) == MemberCount(members, m.householdId) + 2
  {
    var p := (x: Membership) => x.householdId == m.householdId;
    FilterSnoc(members, m, p);
    FilterSnoc(members + [m], m, p);
  }
}
