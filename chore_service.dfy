/** `ChoreService`: creating a chore (validation, defaults, assignment) and completing one (unlink, then credit). */
module ChoreService {
  import opened Wrappers
  import opened Seqs
  import opened Text
  import opened JavaText
  import opened Uuids
  import opened Tables
  import opened MemberOrder
  import opened Store

  /** `CreateChoreRequest`; instants and dates are numbers in an unspecified unit, every field may be null. */
  datatype ChoreRequest = ChoreRequest(
    title: Option<string>,
    description: Option<string>,
    dueAt: Option<int>,
    startDate: Option<int>,
    endDate: Option<int>,
    repeatRule: Option<string>,
    rotateEnabled: Option<bool>,
    rotateWithProfileIds: Option<seq<Uuid>>,
    assigneeId: Option<Uuid>)

  /** The `Chore` that `createChore` builds. `rotateWith` stands for the JSON text written from the id list. */
  datatype Chore = Chore(
    id: Uuid,
    householdId: Uuid,
    title: string,
    description: Option<string>,
    dueAt: Option<int>,
    startDate: Option<int>,
    endDate: Option<int>,
    repeatRule: string,
    rotateEnabled: bool,
    rotateWith: Option<seq<Uuid>>,
    assigneeId: Uuid,
    impact: int)

  /** The `IllegalArgumentException`s the service throws. */
  datatype ChoreError =
    | HouseholdNotFound
    | RequestBodyRequired
    | TitleRequired
    | DueAtAndRange
    | EndBeforeStart
    | NoMembers
    | ResponsibleRequired
    | ResponsibleNotMember
    | NoEligibleRoommates
    | ChoreIdRequired
    | ChoreNotFound

  function Message(e: ChoreError): string {
    match e
    case HouseholdNotFound => "Household not found"
    case RequestBodyRequired => "Request body is required"
    case TitleRequired => "Chore title is required"
    case DueAtAndRange => "Provide either dueAt OR startDate/endDate, not both"
    case EndBeforeStart => "endDate cannot be before startDate"
    case NoMembers => "No household members found to assign this chore"
    case ResponsibleRequired => "Responsible roommate is required when repeat is set to never"
    case ResponsibleNotMember => "Selected responsible roommate is not a member of this household"
    case NoEligibleRoommates => "No eligible roommates found for cycling"
    case ChoreIdRequired => "Chore id is required"
    case ChoreNotFound => "Chore not found"
  }

  // ---------------------------------------------------------------------------------------------
  // The assignment rule

  /** The repeat rule as `pickCycledAssignee` reads it: trimmed, and "never" when absent. */
  function RepeatRuleOf(req: ChoreRequest): string {
    if req.repeatRule.None? then "never" else JavaTrim(req.repeatRule.value)
  }

  predicate RotationEligible(req: ChoreRequest) {
    !EqualsIgnoreCase(RepeatRuleOf(req), "never")
  }

  predicate CycleEnabled(req: ChoreRequest) {
    RotationEligible(req) && req.rotateEnabled == Some(true)
  }

  function MemberIds(members: seq<Profile>): (r: seq<Uuid>)
    ensures |r| == |members|
    ensures forall i :: 0 <= i < |members| ==> r[i] == members[i].id
  {
    Map(members, (p: Profile) => p.id)
  }

  predicate Allowed(req: ChoreRequest, id: Uuid) {
    req.rotateWithProfileIds.Some? && id in req.rotateWithProfileIds.value
  }

  /** The rotation candidates: the members named in `rotateWithProfileIds`, in member order, or every member
      when that list is null or empty. */
  function Candidates(ids: seq<Uuid>, req: ChoreRequest): (r: seq<Uuid>)
    ensures IsSubsequence(r, ids)
    ensures forall i :: 0 <= i < |r| ==> r[i] in ids
  {
    if req.rotateWithProfileIds.Some? && req.rotateWithProfileIds.value != [] then
      Filter(ids, (id: Uuid) => Allowed(req, id))
    else
      assert IsSubsequence(ids, ids) by { assert Filter(ids, (id: Uuid) => true) == ids by { FilterAll(ids, (id: Uuid) => true); } }
      ids
  }

  function TitleKey(req: ChoreRequest): string {
    if req.title.None? then "" else JavaTrim(req.title.value)
  }

  /** An existing chore that counts towards the round-robin index. */
  predicate CountsTowards(t: Task, key: string, cands: seq<Uuid>) {
    t.title.Some? && EqualsIgnoreCase(JavaTrim(t.title.value), key) && t.assigneeId.Some? && t.assigneeId.value in cands
  }

  function RotationCount(existing: seq<Task>, key: string, cands: seq<Uuid>): nat {
    Count(existing, (t: Task) => CountsTowards(t, key, cands))
  }

  /** The round-robin step: candidate number `k mod n`, `k` counting the matching existing chores. */
  function Rotate(cands: seq<Uuid>, existing: seq<Task>, key: string): (r: Result<Uuid, ChoreError>)
    ensures r.Success? ==> r.value in cands
    ensures r.Failure? <==> cands == []
  {
    if cands == [] then Failure(NoEligibleRoommates)
    else Success(cands[RotationCount(existing, key, cands) % |cands|])
  }

  /** `pickCycledAssignee` over the household's members in member order and the chores currently linked to it. */
  function AssignmentRule(members: seq<Profile>, existing: seq<Task>, req: ChoreRequest): Result<Uuid, ChoreError> {
    var ids := MemberIds(members);
    if ids == [] then Failure(NoMembers)
    else if !RotationEligible(req) then
      if req.assigneeId.None? then Failure(ResponsibleRequired)
      else if req.assigneeId.value !in ids then Failure(ResponsibleNotMember)
      else Success(req.assigneeId.value)
    else if !CycleEnabled(req) then Success(ids[0])
    else Rotate(Candidates(ids, req), existing, TitleKey(req))
  }

  /** The loop collecting the ids of the members, in order. */
  method CollectIds(members: seq<Profile>) returns (orderedAll: seq<Uuid>)
    ensures orderedAll == MemberIds(members)
  {
    orderedAll := [];
    var i := 0;
    while i < |members|
      invariant 0 <= i <= |members|
      invariant |orderedAll| == i && forall k :: 0 <= k < i ==> orderedAll[k] == members[k].id
    {
      orderedAll := orderedAll + [members[i].id];
      i := i + 1;
    }
  }

  /** The loop keeping the members named in the rotation list. */
  method SelectCandidates(orderedAll: seq<Uuid>, req: ChoreRequest) returns (candidatesOrdered: seq<Uuid>)
    ensures candidatesOrdered == Candidates(orderedAll, req)
  {
    candidatesOrdered := [];
    if req.rotateWithProfileIds.Some? && req.rotateWithProfileIds.value != [] {
      var allow := req.rotateWithProfileIds.value;
      ghost var p := (id: Uuid) => Allowed(req, id);
      var i := 0;
      while i < |orderedAll|
        invariant 0 <= i <= |orderedAll|
        invariant candidatesOrdered == Filter(orderedAll[..i], p)
      {
        assert orderedAll[..i + 1] == orderedAll[..i] + [orderedAll[i]];
        FilterSnoc(orderedAll[..i], orderedAll[i], p);
        if orderedAll[i] in allow {
          candidatesOrdered := candidatesOrdered + [orderedAll[i]];
        }
        i := i + 1;
      }
      assert orderedAll[..i] == orderedAll;
    } else {
      candidatesOrdered := orderedAll;
    }
  }

  /** One more chore of the counting loop: the count grows by one exactly when that chore counts. */
  lemma RotationCountStep(existing: seq<Task>, i: nat, key: string, cands: seq<Uuid>, before: nat, after: nat)
    requires i < |existing| && before == RotationCount(existing[..i], key, cands)
    requires after == if CountsTowards(existing[i], key, cands) then before + 1 else before
    ensures after == RotationCount(existing[..i + 1], key, cands)
  {
    CountPrefixStep(existing, i, (t: Task) => CountsTowards(t, key, cands));
  }

  /** The loop counting the existing chores with the same title whose assignee is a candidate. */
  method CountAssigned(existing: seq<Task>, title: string, candidatesOrdered: seq<Uuid>) returns (alreadyAssignedCount: nat)
    ensures alreadyAssignedCount == RotationCount(existing, title, candidatesOrdered)
  {
    alreadyAssignedCount := 0;
    var i := 0;
    while i < |existing|
      invariant 0 <= i <= |existing|
      invariant alreadyAssignedCount == RotationCount(existing[..i], title, candidatesOrdered)
    {
      var ch := existing[i];
      ghost var before := alreadyAssignedCount;
      if ch.title.Some? && EqualsIgnoreCase(JavaTrim(ch.title.value), title) {
        if ch.assigneeId.Some? && ch.assigneeId.value in candidatesOrdered {
          alreadyAssignedCount := alreadyAssignedCount + 1;
        }
      }
      RotationCountStep(existing, i, title, candidatesOrdered, before, alreadyAssignedCount);
      i := i + 1;
    }
    assert existing[..i] == existing;
  }

  /** `pickCycledAssignee`. */
  method PickCycledAssignee(db: Database, householdId: Uuid, req: ChoreRequest) returns (r: Result<Uuid, ChoreError>)
    ensures r == AssignmentRule(Members(db.profiles, db.members, householdId),
                                LinkedChores(db.tasks, db.taskLinks, householdId), req)
  {
    var orderedAll := CollectIds(Members(db.profiles, db.members, householdId));
    if orderedAll == [] {
      return Failure(NoMembers);
    }

    var repeatRule := if req.repeatRule.None? then "never" else JavaTrim(req.repeatRule.value);
    var rotationEligible := !EqualsIgnoreCase(repeatRule, "never");
    var cycleEnabled := rotationEligible && req.rotateEnabled == Some(true);

    if !rotationEligible {
      if req.assigneeId.None? {
        return Failure(ResponsibleRequired);
      }
      if req.assigneeId.value !in orderedAll {
        return Failure(ResponsibleNotMember);
      }
      return Success(req.assigneeId.value);
    }
    if !cycleEnabled {
      return Success(orderedAll[0]);
    }

    var candidatesOrdered := SelectCandidates(orderedAll, req);
    if candidatesOrdered == [] {
      return Failure(NoEligibleRoommates);
    }
    var title := if req.title.None? then "" else JavaTrim(req.title.value);
    var alreadyAssignedCount := CountAssigned(LinkedChores(db.tasks, db.taskLinks, householdId), title, candidatesOrdered);
    var idx := alreadyAssignedCount % |candidatesOrdered|;
    return Success(candidatesOrdered[idx]);
  }

  // ---------------------------------------------------------------------------------------------
  // Properties of the assignment rule

  /** Whoever is chosen is a member of the household; when rotating, a candidate. */
  lemma AssigneeIsMember(members: seq<Profile>, existing: seq<Task>, req: ChoreRequest)
    requires AssignmentRule(members, existing, req).Success?
    ensures AssignmentRule(members, existing, req).value in MemberIds(members)
    ensures CycleEnabled(req) ==>
      AssignmentRule(members, existing, req).value in Candidates(MemberIds(members), req)
  {
  }

  /** Assignment fails before any other rule when the household has no members. */
  lemma NoMembersFails(existing: seq<Task>, req: ChoreRequest)
    ensures AssignmentRule([], existing, req) == Failure(NoMembers)
  {
  }

  /** A chore that does not repeat goes to the requested roommate, who must be given and be a member; the
      rotation fields and the existing chores play no part. */
  lemma OneOffAssignment(members: seq<Profile>, existing: seq<Task>, req: ChoreRequest,
                         existing': seq<Task>, rotateEnabled': Option<bool>, rotateWith': Option<seq<Uuid>>)
    requires members != [] && !RotationEligible(req)
    ensures req.assigneeId.None? ==> AssignmentRule(members, existing, req) == Failure(ResponsibleRequired)
    ensures req.assigneeId.Some? && req.assigneeId.value !in MemberIds(members) ==>
      AssignmentRule(members, existing, req) == Failure(ResponsibleNotMember)
    ensures req.assigneeId.Some? && req.assigneeId.value in MemberIds(members) ==>
      AssignmentRule(members, existing, req) == Success(req.assigneeId.value)
    ensures AssignmentRule(members, existing, req)
         == AssignmentRule(members, existing', req.(rotateEnabled := rotateEnabled', rotateWithProfileIds := rotateWith'))
  {
    assert MemberIds(members) != [];
  }

  /** A repeating chore without rotation goes to the member first by first and then last name. */
  lemma RepeatingGoesToFirstMember(ps: seq<Profile>, ms: seq<Membership>, hid: Uuid, existing: seq<Task>,
                                   req: ChoreRequest)
    requires RotationEligible(req) && !CycleEnabled(req)
    requires Members(ps, ms, hid) != []
    ensures AssignmentRule(Members(ps, ms, hid), existing, req) == Success(Members(ps, ms, hid)[0].id)
    ensures forall p :: p in Members(ps, ms, hid) ==> NameLe(Members(ps, ms, hid)[0], p)
  {
    var s := Members(ps, ms, hid);
    assert MemberIds(s) != [];
    forall p | p in s ensures NameLe(s[0], p) {
      var k :| 0 <= k < |s| && s[k] == p;
      if k > 0 {
        assert SortedByName(s);
      } else {
        NameLeTotal(p, p);
      }
    }
  }

  /** A rotating chore goes to candidate number `k mod n`, where `k` counts the matching existing chores. */
  lemma RotatingAssignment(members: seq<Profile>, existing: seq<Task>, req: ChoreRequest)
    requires members != [] && CycleEnabled(req)
    ensures Candidates(MemberIds(members), req) == [] ==>
      AssignmentRule(members, existing, req) == Failure(NoEligibleRoommates)
    ensures Candidates(MemberIds(members), req) != [] ==>
      var cands := Candidates(MemberIds(members), req);
      AssignmentRule(members, existing, req) == Success(cands[RotationCount(existing, TitleKey(req), cands) % |cands|])
  {
    assert MemberIds(members) != [];
  }

  /** The candidates are the listed members when a list is given, and all members otherwise. */
  lemma CandidatesAre(ids: seq<Uuid>, req: ChoreRequest, id: Uuid)
    ensures id in Candidates(ids, req) <==>
      id in ids && (req.rotateWithProfileIds.None? || req.rotateWithProfileIds.value == [] || id in req.rotateWithProfileIds.value)
  {
  }

  /** Chores that match the new one and are still linked each move the round-robin index one step on. */
  lemma {:induction false} RotationCountAppend(existing: seq<Task>, added: seq<Task>, key: string, cands: seq<Uuid>)
    requires forall j :: 0 <= j < |added| ==> CountsTowards(added[j], key, cands)
    ensures RotationCount(existing + added, key, cands) == RotationCount(existing, key, cands) + |added|
  {
    var q := (t: Task) => CountsTowards(t, key, cands);
    CountAppend(existing, added, q);
    FilterAll(added, q);
  }

  /** Successive same-title rotating chores, none completed, cycle through the candidates in order: after `m`
      more of them the next assignee is `m` places further round. */
  lemma RotationCycles(members: seq<Profile>, existing: seq<Task>, req: ChoreRequest, added: seq<Task>)
    requires CycleEnabled(req) && members != []
    requires Candidates(MemberIds(members), req) != []
    requires forall j :: 0 <= j < |added| ==> CountsTowards(added[j], TitleKey(req), Candidates(MemberIds(members), req))
    ensures
      var cands := Candidates(MemberIds(members), req);
      var k := RotationCount(existing, TitleKey(req), cands);
      AssignmentRule(members, existing + added, req) == Success(cands[(k + |added|) % |cands|])
  {
    var cands := Candidates(MemberIds(members), req);
    assert MemberIds(members) != [];
    assert AssignmentRule(members, existing + added, req) == Rotate(cands, existing + added, TitleKey(req));
    RotationCountAppend(existing, added, TitleKey(req), cands);
  }

  // ---------------------------------------------------------------------------------------------
  // createChore

  /** The validation at the top of `createChore`, in its order. */
  function ValidationError(households: seq<HouseholdRow>, householdId: Uuid, req: Option<ChoreRequest>): Option<ChoreError> {
    if HouseholdById(households, householdId).None? then Some(HouseholdNotFound)
    else if req.None? then Some(RequestBodyRequired)
    else if req.value.title.None? || JavaTrim(req.value.title.value) == [] then Some(TitleRequired)
    else if req.value.dueAt.Some? && (req.value.startDate.Some? || req.value.endDate.Some?) then Some(DueAtAndRange)
    else if req.value.startDate.Some? && req.value.endDate.Some? && req.value.endDate.value < req.value.startDate.value
    then Some(EndBeforeStart)
    else None
  }

  /** A request passes validation exactly when all five conditions hold. */
  lemma ValidationPasses(households: seq<HouseholdRow>, householdId: Uuid, req: Option<ChoreRequest>)
    ensures ValidationError(households, householdId, req).None? <==>
      && (exists i :: 0 <= i < |households| && households[i].id == householdId)
      && req.Some?
      && req.value.title.Some? && JavaTrim(req.value.title.value) != []
      && !(req.value.dueAt.Some? && (req.value.startDate.Some? || req.value.endDate.Some?))
      && !(req.value.startDate.Some? && req.value.endDate.Some? && req.value.endDate.value < req.value.startDate.value)
  {
    assert HouseholdById(households, householdId).Some? <==>
      exists i :: 0 <= i < |households| && households[i].id == householdId;
  }

  /** The chore `createChore` builds from a validated request. */
  function BuildChore(householdId: Uuid, req: ChoreRequest, impact: int, newId: Uuid, assignee: Uuid): (c: Chore)
    requires req.title.Some?
    ensures IsTrimmed(c.title, IsTrimSpace) && c.title == JavaTrim(req.title.value)
    ensures c.repeatRule == req.repeatRule.GetOr("never")
    ensures c.rotateEnabled <==> req.rotateEnabled == Some(true)
    ensures c.id == newId && c.householdId == householdId && c.assigneeId == assignee && c.impact == impact
  {
    TrimIdempotent(req.title.value, IsTrimSpace);
    Chore(newId, householdId, JavaTrim(req.title.value), req.description, req.dueAt, req.startDate, req.endDate,
          if req.repeatRule.None? then "never" else req.repeatRule.value,
          req.rotateEnabled == Some(true), req.rotateWithProfileIds, assignee, impact)
  }

  /** The `public.task` row `ChoreMapper.createChore` writes: only these columns exist. */
  function TaskRow(c: Chore): (t: Task)
    ensures t.id == c.id && t.title == Some(c.title) && t.assigneeId == Some(c.assigneeId)
  {
    Task(c.id, Some(c.title), c.dueAt, c.impact, Some(c.assigneeId))
  }

  /** The checks at the top of `createChore`. */
  method Validate(households: seq<HouseholdRow>, householdId: Uuid, req: Option<ChoreRequest>) returns (r: Option<ChoreError>)
    ensures r == ValidationError(households, householdId, req)
  {
    if HouseholdById(households, householdId).None? {
      return Some(HouseholdNotFound);
    }
    if req.None? {
      return Some(RequestBodyRequired);
    }
    var rq := req.value;
    if rq.title.None? || JavaTrim(rq.title.value) == [] {
      return Some(TitleRequired);
    }
    var hasDueAt := rq.dueAt.Some?;
    var hasRange := rq.startDate.Some? || rq.endDate.Some?;
    if hasDueAt && hasRange {
      return Some(DueAtAndRange);
    }
    if rq.startDate.Some? && rq.endDate.Some? && rq.endDate.value < rq.startDate.value {
      return Some(EndBeforeStart);
    }
    return None;
  }

  /** What `createChore` answers: the first validation error, else the assignment error, else the built chore. */
  function CreateResult(households: seq<HouseholdRow>, members: seq<Profile>, existing: seq<Task>, householdId: Uuid,
                        req: Option<ChoreRequest>, impact: int, newId: Uuid): Result<Chore, ChoreError>
  {
    var v := ValidationError(households, householdId, req);
    if v.Some? then Failure(v.value)
    else
      match AssignmentRule(members, existing, req.value)
      case Failure(e) => Failure(e)
      case Success(a) => Success(BuildChore(householdId, req.value, impact, newId, a))
  }

  /** `createChore`; `impact` is the scorer's answer and `newId` the fresh task id. The canonical view the
      source re-reads after inserting is the chore it built. */
  method CreateChore(db: Database, householdId: Uuid, req: Option<ChoreRequest>, impact: int, newId: Uuid)
    returns (r: Result<Chore, ChoreError>)
    modifies db`tasks, db`taskLinks
    ensures r == CreateResult(old(db.households), Members(old(db.profiles), old(db.members), householdId),
                              LinkedChores(old(db.tasks), old(db.taskLinks), householdId), householdId, req, impact, newId)
    ensures r.Failure? ==> db.tasks == old(db.tasks) && db.taskLinks == old(db.taskLinks)
    ensures r.Success? ==>
      && db.tasks == old(db.tasks) + [TaskRow(r.value)]
      && db.taskLinks == old(db.taskLinks) + [TaskLink(householdId, newId, r.value.assigneeId)]
  {
    ghost var members := Members(db.profiles, db.members, householdId);
    ghost var existing := LinkedChores(db.tasks, db.taskLinks, householdId);
    var invalid := Validate(db.households, householdId, req);
    if invalid.Some? {
      return Failure(invalid.value);
    }
    var rq := req.value;
    var chosen := PickCycledAssignee(db, householdId, rq);
    assert chosen == AssignmentRule(members, existing, rq);
    if chosen.Failure? {
      return Failure(chosen.error);
    }
    var c := BuildChore(householdId, rq, impact, newId, chosen.value);
    assert CreateResult(db.households, members, existing, householdId, req, impact, newId) == Success(c);
    db.tasks := db.tasks + [TaskRow(c)];
    db.taskLinks := db.taskLinks + [TaskLink(householdId, c.id, chosen.value)];
    return Success(c);
  }

  /** On success the link row carries the chosen assignee, which is a member of the household. */
  lemma CreatedAssigneeIsMember(households: seq<HouseholdRow>, members: seq<Profile>, existing: seq<Task>,
                                householdId: Uuid, req: Option<ChoreRequest>, impact: int, newId: Uuid)
    requires CreateResult(households, members, existing, householdId, req, impact, newId).Success?
    ensures CreateResult(households, members, existing, householdId, req, impact, newId).value.assigneeId in MemberIds(members)
  {
    var a := AssignmentRule(members, existing, req.value);
    AssigneeIsMember(members, existing, req.value);
  }

  // ---------------------------------------------------------------------------------------------
  // The chore list as the round-robin sees it

  lemma {:induction false} TaskByIdSnoc(ts: seq<Task>, t: Task, id: Uuid)
    requires id != t.id
    ensures TaskById(ts + [t], id) == TaskById(ts, id)
  {
    var p := (x: Task) => x.id == id;
    match TaskById(ts, id)
    case None =>
    case Some(v) =>
      var k :| 0 <= k < |ts| && ts[k] == v && p(ts[k]) && forall j :: 0 <= j < k ==> !p(ts[j]);
      assert (ts + [t])[k] == ts[k];
      FirstMatchAt(ts + [t], p, k);
  }

  lemma {:induction false} TaskByIdFresh(ts: seq<Task>, t: Task)
    requires forall i :: 0 <= i < |ts| ==> ts[i].id != t.id
    ensures TaskById(ts + [t], t.id) == Some(t)
  {
    FirstMatchAt(ts + [t], (x: Task) => x.id == t.id, |ts|);
  }

  lemma {:induction false} JoinTasksSnoc(rows: seq<TaskLink>, ts: seq<Task>, t: Task)
    requires forall i :: 0 <= i < |rows| ==> rows[i].taskId != t.id
    ensures JoinTasks(rows, ts + [t]) == JoinTasks(rows, ts)
    decreases |rows|
  {
    if rows != [] {
      TaskByIdSnoc(ts, t, rows[0].taskId);
      JoinTasksSnoc(rows[1..], ts, t);
    }
  }

  lemma LinkRowsFresh(links: seq<TaskLink>, hid: Uuid, tid: Uuid)
    requires forall i :: 0 <= i < |links| ==> links[i].taskId != tid
    ensures forall i :: 0 <= i < |LinkRows(links, hid)| ==> LinkRows(links, hid)[i].taskId != tid
  {
    var rows := LinkRows(links, hid);
    forall i | 0 <= i < |rows| ensures rows[i].taskId != tid {
      assert rows[i] in links;
    }
  }

  /** A chore created with a fresh id is added at the end of its household's list. */
  lemma LinkedChoresAfterCreate(ts: seq<Task>, links: seq<TaskLink>, hid: Uuid, t: Task, profileId: Uuid)
    requires forall i :: 0 <= i < |ts| ==> ts[i].id != t.id
    requires forall i :: 0 <= i < |links| ==> links[i].taskId != t.id
    ensures LinkedChores(ts + [t], links + [TaskLink(hid, t.id, profileId)], hid) == LinkedChores(ts, links, hid) + [t]
  {
    var l := TaskLink(hid, t.id, profileId);
    var rows := LinkRows(links, hid);
    assert LinkRows(links + [l], hid) == rows + [l] by {
      FilterSnoc(links, l, (x: TaskLink) => x.householdId == hid);
    }
    JoinTasksAppend(rows, [l], ts + [t]);
    LinkRowsFresh(links, hid, t.id);
    JoinTasksSnoc(rows, ts, t);
    TaskByIdFresh(ts, t);
    assert JoinTasks([l], ts + [t]) == [t] by {
      assert ([l])[1..] == [];
    }
  }

  /** ... and the lists of the other households are unchanged. */
  lemma OtherChoresAfterCreate(ts: seq<Task>, links: seq<TaskLink>, hid: Uuid, t: Task, profileId: Uuid, other: Uuid)
    requires forall i :: 0 <= i < |ts| ==> ts[i].id != t.id
    requires forall i :: 0 <= i < |links| ==> links[i].taskId != t.id
    requires other != hid
    ensures LinkedChores(ts + [t], links + [TaskLink(hid, t.id, profileId)], other) == LinkedChores(ts, links, other)
  {
    var l := TaskLink(hid, t.id, profileId);
    assert LinkRows(links + [l], other) == LinkRows(links, other) by {
      FilterSnoc(links, l, (x: TaskLink) => x.householdId == other);
    }
    LinkRowsFresh(links, other, t.id);
    JoinTasksSnoc(LinkRows(links, other), ts, t);
  }

  /** Successive successful rotating creations for the same title, none completed in between, assign the
      candidates in turn. */
  lemma CreateAdvancesRotation(members: seq<Profile>, ts: seq<Task>, links: seq<TaskLink>, hid: Uuid,
                               req: ChoreRequest, a: Uuid, t: Task)
    requires CycleEnabled(req) && req.title.Some?
    requires AssignmentRule(members, LinkedChores(ts, links, hid), req) == Success(a)
    requires t.id !in Ids(ts) && forall i :: 0 <= i < |links| ==> links[i].taskId != t.id
    requires t.title == Some(JavaTrim(req.title.value)) && t.assigneeId == Some(a)
    ensures
      var cands := Candidates(MemberIds(members), req);
      var k := RotationCount(LinkedChores(ts, links, hid), TitleKey(req), cands);
      && cands != []
      && a == cands[k % |cands|]
      && AssignmentRule(members, LinkedChores(ts + [t], links + [TaskLink(hid, t.id, a)], hid), req)
         == Success(cands[(k + 1) % |cands|])
  {
    var cands := Candidates(MemberIds(members), req);
    var existing := LinkedChores(ts, links, hid);
    var k := RotationCount(existing, TitleKey(req), cands);
    assert members != [] by { assert MemberIds(members) != []; }
    assert cands != [] && a == cands[k % |cands|] by {
      RotatingAssignment(members, existing, req);
    }
    assert CountsTowards(t, TitleKey(req), cands) by {
      AssigneeIsMember(members, existing, req);
      NewChoreCounts(req.title.value, t, cands);
    }
    assert LinkedChores(ts + [t], links + [TaskLink(hid, t.id, a)], hid) == existing + [t] by {
      forall i | 0 <= i < |ts| ensures ts[i].id != t.id { assert Ids(ts)[i] == ts[i].id; }
      LinkedChoresAfterCreate(ts, links, hid, t, a);
    }
    AdvanceRule(members, existing, req, t, cands, k);
  }

  lemma AdvanceRule(members: seq<Profile>, existing: seq<Task>, req: ChoreRequest, t: Task, cands: seq<Uuid>, k: nat)
    requires CycleEnabled(req) && members != []
    requires cands == Candidates(MemberIds(members), req) && cands != []
    requires k == RotationCount(existing, TitleKey(req), cands)
    requires CountsTowards(t, TitleKey(req), cands)
    ensures AssignmentRule(members, existing + [t], req) == Success(cands[(k + 1) % |cands|])
  {
    var added := [t];
    assert added[0] == t;
    RotationCycles(members, existing, req, added);
  }

  /** A chore stored under the trimmed title of a request counts towards that request's round-robin index. */
  lemma NewChoreCounts(title: string, t: Task, cands: seq<Uuid>)
    requires t.title == Some(JavaTrim(title)) && t.assigneeId.Some? && t.assigneeId.value in cands
    ensures CountsTowards(t, JavaTrim(title), cands)
  {
    TrimIdempotent(title, IsTrimSpace);
  }

  function Ids(ts: seq<Task>): (r: seq<Uuid>)
    ensures |r| == |ts| && forall i :: 0 <= i < |ts| ==> r[i] == ts[i].id
  {
    Map(ts, (t: Task) => t.id)
  }

  // ---------------------------------------------------------------------------------------------
  // completeChore

  /** Why `completeChore` fails, checked in its order, or `None` when it succeeds. */
  function CompletionError(households: seq<HouseholdRow>, ts: seq<Task>, links: seq<TaskLink>, householdId: Uuid,
                           choreId: Option<Uuid>): Option<ChoreError>
  {
    if HouseholdById(households, householdId).None? then Some(HouseholdNotFound)
    else if choreId.None? then Some(ChoreIdRequired)
    else if LinkedProfileId(links, householdId, choreId.value).None? then Some(ChoreNotFound)
    else if TaskById(ts, choreId.value).None? then Some(ChoreNotFound)
    else None
  }

  /** `completeChore`: remove the chore's links to the household, then credit its impact once to the profile
      of the first link, when the impact is positive. */
  method CompleteChore(db: Database, householdId: Uuid, choreId: Option<Uuid>) returns (r: Outcome<ChoreError>)
    modifies db`taskLinks, db`profiles
    ensures CompletionError(old(db.households), old(db.tasks), old(db.taskLinks), householdId, choreId).Some? ==>
      && r == Fail(CompletionError(old(db.households), old(db.tasks), old(db.taskLinks), householdId, choreId).value)
      && db.taskLinks == old(db.taskLinks) && db.profiles == old(db.profiles)
    ensures CompletionError(old(db.households), old(db.tasks), old(db.taskLinks), householdId, choreId).None? ==>
      var linked := LinkedProfileId(old(db.taskLinks), householdId, choreId.value).value;
      var impact := TaskById(old(db.tasks), choreId.value).value.impact;
      && r == Pass
      && db.taskLinks == Unlink(old(db.taskLinks), householdId, choreId.value)
      && db.profiles == (if impact > 0 then Credit(old(db.profiles), linked, impact) else old(db.profiles))
  {
    if HouseholdById(db.households, householdId).None? {
      return Fail(HouseholdNotFound);
    }
    if choreId.None? {
      return Fail(ChoreIdRequired);
    }
    var id := choreId.value;
    var linkedProfileId := LinkedProfileId(db.taskLinks, householdId, id);
    if linkedProfileId.None? {
      return Fail(ChoreNotFound);
    }
    var chore := TaskById(db.tasks, id);
    if chore.None? {
      return Fail(ChoreNotFound);
    }
    UnlinkCountPositive(db.taskLinks, householdId, id);
    var deleted := UnlinkCount(db.taskLinks, householdId, id);
    db.taskLinks := Unlink(db.taskLinks, householdId, id);
    assert deleted > 0;
    var delta := chore.value.impact;
    if delta > 0 {
      db.profiles := Credit(db.profiles, linkedProfileId.value, delta);
    }
    return Pass;
  }

  /** Once a chore is completed it is no longer linked, so completing it again fails with "Chore not found". */
  lemma CompleteTwiceFails(households: seq<HouseholdRow>, ts: seq<Task>, links: seq<TaskLink>, hid: Uuid, tid: Uuid)
    requires CompletionError(households, ts, links, hid, Some(tid)).None?
    ensures CompletionError(households, ts, Unlink(links, hid, tid), hid, Some(tid)) == Some(ChoreNotFound)
  {
    UnlinkRemovesLink(links, hid, tid);
  }

  /** Completing credits exactly the linked profile's rows, once, by the impact. */
  lemma CreditOnce(ps: seq<Profile>, pid: Uuid, impact: int, i: nat)
    requires i < |ps|
    ensures ps[i].id == pid ==> Credit(ps, pid, impact)[i].userScore == ps[i].userScore + impact
    ensures ps[i].id != pid ==> Credit(ps, pid, impact)[i] == ps[i]
    ensures Credit(ps, pid, impact)[i].id == ps[i].id
  {
  }

  lemma {:induction false} JoinTasksUnlink(rows: seq<TaskLink>, ts: seq<Task>, tid: Uuid)
    ensures JoinTasks(Filter(rows, (l: TaskLink) => l.taskId != tid), ts)
         == Filter(JoinTasks(rows, ts), (t: Task) => t.id != tid)
    decreases |rows|
  {
    var p := (l: TaskLink) => l.taskId != tid;
    var q := (t: Task) => t.id != tid;
    if rows != [] {
      var x, rest := rows[0], rows[1..];
      var head := OptionToSeq(TaskById(ts, x.taskId));
      JoinTasksUnlink(rest, ts, tid);
      assert Filter(JoinTasks(rows, ts), q) == Filter(head, q) + Filter(JoinTasks(rest, ts), q) by {
        FilterAppend(head, JoinTasks(rest, ts), q);
      }
      if p(x) {
        var kept := [x] + Filter(rest, p);
        assert Filter(rows, p) == kept;
        assert kept[0] == x && kept[1..] == Filter(rest, p);
        assert Filter(head, q) == head by {
          if head != [] {
            assert head == [head[0]] && head[0].id == x.taskId;
            assert head[1..] == [];
          }
        }
      } else {
        assert Filter(rows, p) == Filter(rest, p);
        assert Filter(head, q) == [] by {
          if head != [] {
            assert head == [head[0]] && head[0].id == tid;
            assert head[1..] == [];
          }
        }
      }
    }
  }

  /** Completing a chore removes it (and only it) from the household's list, so it no longer counts towards
      the round-robin index. */
  lemma LinkedChoresAfterComplete(ts: seq<Task>, links: seq<TaskLink>, hid: Uuid, tid: Uuid)
    ensures LinkedChores(ts, Unlink(links, hid, tid), hid) == Filter(LinkedChores(ts, links, hid), (t: Task) => t.id != tid)
  {
    var p := (l: TaskLink) => l.taskId != tid;
    var un := (l: TaskLink) => !IsLink(l, hid, tid);
    var inH := (l: TaskLink) => l.householdId == hid;
    var both := (l: TaskLink) => l.householdId == hid && l.taskId != tid;
    FilterFilter(links, un, both);
    FilterFilter(links, inH, both);
    assert Filter(Filter(links, un), inH) == Filter(links, both) by {
      FilterCommute(links, un, inH, both);
    }
    assert Filter(Filter(links, inH), p) == Filter(links, both) by {
      FilterCommute(links, inH, p, both);
    }
    JoinTasksUnlink(LinkRows(links, hid), ts, tid);
  }

  lemma {:induction false} FilterCommute(s: seq<TaskLink>, a: TaskLink -> bool, b: TaskLink -> bool, ab: TaskLink -> bool)
    requires forall x :: ab(x) == (a(x) && b(x))
    ensures Filter(Filter(s, a), b) == Filter(s, ab)
    decreases |s|
  {
    if s != [] {
      FilterCommute(s[1..], a, b, ab);
    }
  }
}
