/** The database as in-memory tables, and the queries the mappers run over them. A table is a sequence of rows in
    storage order; an unordered `LIMIT 1` select returns the first matching row. */
module Store {
  import opened Wrappers
  import opened Seqs
  import opened Text
  import opened Uuids
  import opened Tables
  import opened MemberOrder

  class Database {
    var profiles: seq<Profile>
    var households: seq<HouseholdRow>
    var members: seq<Membership>
    var tasks: seq<Task>
    var taskLinks: seq<TaskLink>
    var expenses: seq<Expense>
    var splits: seq<ExpenseSplit>
    var invites: seq<Invite>

    constructor(profiles: seq<Profile>)
      ensures this.profiles == profiles
      ensures households == [] && members == [] && tasks == [] && taskLinks == []
      ensures expenses == [] && splits == [] && invites == []
    {
      this.profiles := profiles;
      households, members, tasks, taskLinks := [], [], [], [];
      expenses, splits, invites := [], [], [];
    }
  }

  // ---------------------------------------------------------------------------------------------
  // Households and profiles

  /** `getHouseholdById`. */
  function HouseholdById(hs: seq<HouseholdRow>, id: Uuid): (r: Option<HouseholdRow>)
    ensures r.Some? ==> r.value in hs && r.value.id == id
    ensures r.None? <==> forall i :: 0 <= i < |hs| ==> hs[i].id != id
  {
    FirstMatch(hs, (h: HouseholdRow) => h.id == id)
  }

  /** `getHouseholdByHomeCode`. */
  function HouseholdByHomeCode(hs: seq<HouseholdRow>, code: string): (r: Option<HouseholdRow>)
    ensures r.Some? ==> r.value in hs && r.value.homeCode == code
    ensures r.None? <==> forall i :: 0 <= i < |hs| ==> hs[i].homeCode != code
  {
    FirstMatch(hs, (h: HouseholdRow) => h.homeCode == code)
  }

  /** `deleteHousehold`. */
  function DeleteHousehold(hs: seq<HouseholdRow>, id: Uuid): (r: seq<HouseholdRow>)
    ensures forall i :: 0 <= i < |r| ==> r[i].id != id && r[i] in hs
    ensures forall i :: 0 <= i < |hs| && hs[i].id != id ==> hs[i] in r
  {
    Filter(hs, (h: HouseholdRow) => h.id != id)
  }

  /** `getProfileById`. */
  function ProfileById(ps: seq<Profile>, id: Uuid): (r: Option<Profile>)
    ensures r.Some? ==> r.value in ps && r.value.id == id
    ensures r.None? <==> forall i :: 0 <= i < |ps| ==> ps[i].id != id
  {
    FirstMatch(ps, (p: Profile) => p.id == id)
  }

  predicate EmailMatches(p: Profile, email: string) {
    p.email.Some? && EqualsIgnoreCase(p.email.value, email)
  }

  /** `getProfileByEmail`: `lower(email) = lower(?)`, first row. */
  function ProfileByEmail(ps: seq<Profile>, email: string): (r: Option<Profile>)
    ensures r.Some? ==> r.value in ps && EmailMatches(r.value, email)
    ensures r.None? <==> forall i :: 0 <= i < |ps| ==> !EmailMatches(ps[i], email)
  {
    FirstMatch(ps, (p: Profile) => EmailMatches(p, email))
  }

  /** `incrementUserScore(id, delta)`: every row with that id gains `delta`. */
  function Credit(ps: seq<Profile>, id: Uuid, delta: int): (r: seq<Profile>)
    ensures |r| == |ps|
    ensures forall i :: 0 <= i < |ps| ==>
      r[i] == (if ps[i].id == id then ps[i].(userScore := ps[i].userScore + delta) else ps[i])
  {
    Map(ps, (p: Profile) => if p.id == id then p.(userScore := p.userScore + delta) else p)
  }

  // ---------------------------------------------------------------------------------------------
  // Memberships

  function MemberRows(ms: seq<Membership>, hid: Uuid): (r: seq<Membership>)
    ensures forall i :: 0 <= i < |r| ==> r[i].householdId == hid && r[i] in ms
    ensures forall i :: 0 <= i < |ms| && ms[i].householdId == hid ==> ms[i] in r
  {
    Filter(ms, (m: Membership) => m.householdId == hid)
  }

  /** `countMembers`: the number of membership rows, duplicates included. */
  function MemberCount(ms: seq<Membership>, hid: Uuid): nat {
    |MemberRows(ms, hid)|
  }

  /** The join of membership rows with profiles, in row order. */
  function JoinProfiles(rows: seq<Membership>, ps: seq<Profile>): (r: seq<Profile>)
    ensures |r| <= |rows|
  {
    if rows == [] then [] else OptionToSeq(ProfileById(ps, rows[0].profileId)) + JoinProfiles(rows[1..], ps)
  }

  /** Every joined profile comes from a membership row, and every row whose profile exists contributes it. */
  lemma {:induction false} JoinProfilesRows(rows: seq<Membership>, ps: seq<Profile>)
    ensures forall i :: 0 <= i < |JoinProfiles(rows, ps)| ==>
      JoinProfiles(rows, ps)[i] in ps && exists j :: 0 <= j < |rows| && rows[j].profileId == JoinProfiles(rows, ps)[i].id
    ensures forall j :: 0 <= j < |rows| && ProfileById(ps, rows[j].profileId).Some? ==>
      ProfileById(ps, rows[j].profileId).value in JoinProfiles(rows, ps)
    decreases |rows|
  {
    if rows != [] {
      var rest := rows[1..];
      var head := OptionToSeq(ProfileById(ps, rows[0].profileId));
      var tail := JoinProfiles(rest, ps);
      var r := JoinProfiles(rows, ps);
      JoinProfilesRows(rest, ps);
      assert r == head + tail;
      forall i | 0 <= i < |r| ensures r[i] in ps && exists j :: 0 <= j < |rows| && rows[j].profileId == r[i].id {
        if i < |head| {
          assert r[i] == ProfileById(ps, rows[0].profileId).value;
          assert rows[0].profileId == r[i].id;
        } else {
          assert r[i] == tail[i - |head|];
          var j :| 0 <= j < |rest| && rest[j].profileId == tail[i - |head|].id;
          assert rows[j + 1].profileId == r[i].id;
        }
      }
      forall j | 0 <= j < |rows| && ProfileById(ps, rows[j].profileId).Some?
        ensures ProfileById(ps, rows[j].profileId).value in r
      {
        if j > 0 { assert rows[j] == rest[j - 1]; }
      }
    }
  }

  /** `getMembers`: the profiles of the household's members, by first and then last name. */
  function Members(ps: seq<Profile>, ms: seq<Membership>, hid: Uuid): (r: seq<Profile>)
    ensures SortedByName(r)
    ensures multiset(r) == multiset(JoinProfiles(MemberRows(ms, hid), ps))
  {
    SortByNameSorted(JoinProfiles(MemberRows(ms, hid), ps));
    SortByName(JoinProfiles(MemberRows(ms, hid), ps))
  }

  /** `removeMember`: every row for this household and profile goes. */
  function RemoveMember(ms: seq<Membership>, hid: Uuid, pid: Uuid): (r: seq<Membership>)
    ensures forall i :: 0 <= i < |r| ==> r[i] != Membership(hid, pid) && r[i] in ms
    ensures forall i :: 0 <= i < |ms| && ms[i] != Membership(hid, pid) ==> ms[i] in r
  {
    Filter(ms, (m: Membership) => m != Membership(hid, pid))
  }

  // ---------------------------------------------------------------------------------------------
  // Tasks and their links

  function TaskById(ts: seq<Task>, id: Uuid): (r: Option<Task>)
    ensures r.Some? ==> r.value in ts && r.value.id == id
    ensures r.None? <==> forall i :: 0 <= i < |ts| ==> ts[i].id != id
  {
    FirstMatch(ts, (t: Task) => t.id == id)
  }

  /** The link rows of `task_to_household` for one household. */
  function LinkRows(links: seq<TaskLink>, hid: Uuid): (r: seq<TaskLink>)
    ensures forall i :: 0 <= i < |r| ==> r[i].householdId == hid && r[i] in links
    ensures forall i :: 0 <= i < |links| && links[i].householdId == hid ==> links[i] in r
  {
    Filter(links, (l: TaskLink) => l.householdId == hid)
  }

  /** The join of link rows with tasks, in row order. */
  function JoinTasks(rows: seq<TaskLink>, ts: seq<Task>): (r: seq<Task>)
    ensures |r| <= |rows|
    ensures forall i :: 0 <= i < |r| ==> r[i] in ts
  {
    if rows == [] then []
    else OptionToSeq(TaskById(ts, rows[0].taskId)) + JoinTasks(rows[1..], ts)
  }

  lemma {:induction false} JoinTasksAppend(a: seq<TaskLink>, b: seq<TaskLink>, ts: seq<Task>)
    ensures JoinTasks(a + b, ts) == JoinTasks(a, ts) + JoinTasks(b, ts)
  {
    if a == [] {
      assert a + b == b;
    } else {
      assert (a + b)[1..] == a[1..] + b;
      JoinTasksAppend(a[1..], b, ts);
    }
  }

  /** The link row names the task `t`, and `t` is in the task table. */
  predicate RowTask(ts: seq<Task>, row: TaskLink, t: Task) {
    TaskById(ts, row.taskId) == Some(t)
  }

  /** Every joined task is the task of one of the rows. */
  lemma {:induction false} JoinTasksSound(rows: seq<TaskLink>, ts: seq<Task>)
    ensures forall i :: 0 <= i < |JoinTasks(rows, ts)| ==>
      exists j :: 0 <= j < |rows| && RowTask(ts, rows[j], JoinTasks(rows, ts)[i])
    decreases |rows|
  {
    if rows != [] {
      var rest := rows[1..];
      var head := OptionToSeq(TaskById(ts, rows[0].taskId));
      var tail := JoinTasks(rest, ts);
      var r := JoinTasks(rows, ts);
      JoinTasksSound(rest, ts);
      assert r == head + tail;
      forall i | 0 <= i < |r| ensures exists j :: 0 <= j < |rows| && RowTask(ts, rows[j], r[i]) {
        if i < |head| {
          assert head == [TaskById(ts, rows[0].taskId).value] && r[i] == head[0];
          assert RowTask(ts, rows[0], r[i]);
        } else {
          assert r[i] == tail[i - |head|];
          var j :| 0 <= j < |rest| && RowTask(ts, rest[j], tail[i - |head|]);
          assert rows[j + 1] == rest[j];
          assert RowTask(ts, rows[j + 1], r[i]);
        }
      }
    } else {
      assert JoinTasks(rows, ts) == [];
    }
  }

  /** Every row whose task exists contributes that task to the join. */
  lemma {:induction false} JoinTasksComplete(rows: seq<TaskLink>, ts: seq<Task>)
    ensures forall j :: 0 <= j < |rows| && TaskById(ts, rows[j].taskId).Some? ==>
      TaskById(ts, rows[j].taskId).value in JoinTasks(rows, ts)
    decreases |rows|
  {
    if rows != [] {
      var rest := rows[1..];
      JoinTasksComplete(rest, ts);
      assert JoinTasks(rows, ts) == OptionToSeq(TaskById(ts, rows[0].taskId)) + JoinTasks(rest, ts);
      forall j | 0 <= j < |rows| && TaskById(ts, rows[j].taskId).Some?
        ensures TaskById(ts, rows[j].taskId).value in JoinTasks(rows, ts)
      {
        if j > 0 { assert rows[j] == rest[j - 1]; }
      }
    }
  }

  /** The joined tasks of a household's link rows are exactly the existing tasks its link rows name. */
  lemma JoinLinkRows(ts: seq<Task>, links: seq<TaskLink>, hid: Uuid)
    ensures forall i :: 0 <= i < |JoinTasks(LinkRows(links, hid), ts)| ==>
      exists j :: 0 <= j < |links| && links[j].householdId == hid &&
        RowTask(ts, links[j], JoinTasks(LinkRows(links, hid), ts)[i])
    ensures forall j :: 0 <= j < |links| && links[j].householdId == hid && TaskById(ts, links[j].taskId).Some? ==>
      TaskById(ts, links[j].taskId).value in JoinTasks(LinkRows(links, hid), ts)
  {
    var rows := LinkRows(links, hid);
    var r := JoinTasks(rows, ts);
    JoinTasksSound(rows, ts);
    JoinTasksComplete(rows, ts);
    forall i | 0 <= i < |r|
      ensures exists j :: 0 <= j < |links| && links[j].householdId == hid && RowTask(ts, links[j], r[i])
    {
      var k :| 0 <= k < |rows| && RowTask(ts, rows[k], r[i]);
      assert rows[k] in links;
      var j :| 0 <= j < |links| && links[j] == rows[k];
      assert links[j].householdId == hid && RowTask(ts, links[j], r[i]);
    }
    forall j | 0 <= j < |links| && links[j].householdId == hid && TaskById(ts, links[j].taskId).Some?
      ensures TaskById(ts, links[j].taskId).value in r
    {
      assert links[j] in rows;
      var k :| 0 <= k < |rows| && rows[k] == links[j];
      assert TaskById(ts, rows[k].taskId).Some?;
    }
  }

  /** `getChoresByHouseholdId`: the tasks that are still linked to the household. */
  function LinkedChores(ts: seq<Task>, links: seq<TaskLink>, hid: Uuid): (r: seq<Task>)
    ensures forall i :: 0 <= i < |r| ==> r[i] in ts
    ensures forall i :: 0 <= i < |r| ==>
      exists j :: 0 <= j < |links| && links[j].householdId == hid && RowTask(ts, links[j], r[i])
    ensures forall j :: 0 <= j < |links| && links[j].householdId == hid && TaskById(ts, links[j].taskId).Some? ==>
      TaskById(ts, links[j].taskId).value in r
  {
    JoinLinkRows(ts, links, hid);
    JoinTasks(LinkRows(links, hid), ts)
  }

  predicate IsLink(l: TaskLink, hid: Uuid, tid: Uuid) {
    l.householdId == hid && l.taskId == tid
  }

  /** `getLinkedProfileId`: the profile of the first link of this task to this household. */
  function LinkedProfileId(links: seq<TaskLink>, hid: Uuid, tid: Uuid): (r: Option<Uuid>)
    ensures r.None? <==> forall i :: 0 <= i < |links| ==> !IsLink(links[i], hid, tid)
    ensures r.Some? ==> exists i :: 0 <= i < |links| && IsLink(links[i], hid, tid) && links[i].profileId == r.value
  {
    match FirstMatch(links, (l: TaskLink) => IsLink(l, hid, tid))
    case None => None
    case Some(l) => Some(l.profileId)
  }

  /** `unlinkTaskFromHousehold`: every link of this task to this household goes. */
  function Unlink(links: seq<TaskLink>, hid: Uuid, tid: Uuid): (r: seq<TaskLink>)
    ensures forall i :: 0 <= i < |r| ==> !IsLink(r[i], hid, tid) && r[i] in links
    ensures forall i :: 0 <= i < |links| && !IsLink(links[i], hid, tid) ==> links[i] in r
  {
    Filter(links, (l: TaskLink) => !IsLink(l, hid, tid))
  }

  /** The number of rows the unlink deletes. */
  function UnlinkCount(links: seq<TaskLink>, hid: Uuid, tid: Uuid): nat {
    Count(links, (l: TaskLink) => IsLink(l, hid, tid))
  }

  /** After unlinking, the task has no link to the household left. */
  lemma UnlinkRemovesLink(links: seq<TaskLink>, hid: Uuid, tid: Uuid)
    ensures LinkedProfileId(Unlink(links, hid, tid), hid, tid).None?
  {
  }

  /** A task with a link is unlinked by at least one deleted row. */
  lemma {:induction false} UnlinkCountPositive(links: seq<TaskLink>, hid: Uuid, tid: Uuid)
    requires LinkedProfileId(links, hid, tid).Some?
    ensures UnlinkCount(links, hid, tid) > 0
  {
    var i :| 0 <= i < |links| && IsLink(links[i], hid, tid);
    var p := (l: TaskLink) => IsLink(l, hid, tid);
    assert links[i] in Filter(links, p);
  }

  // ---------------------------------------------------------------------------------------------
  // Expenses

  /** The row test of `getExpenseById`. */
  function HasExpenseId(id: Uuid): Expense -> bool {
    (e: Expense) => e.id == id
  }

  function ExpenseById(es: seq<Expense>, id: Uuid): (r: Option<Expense>)
    ensures r.Some? ==> r.value in es && r.value.id == id
    ensures r.None? <==> forall i :: 0 <= i < |es| ==> es[i].id != id
  {
    FirstMatch(es, HasExpenseId(id))
  }

  /** The row test of `getSplitsByExpense`. */
  function SplitOf(eid: Uuid): ExpenseSplit -> bool {
    (s: ExpenseSplit) => s.expenseId == eid
  }

  /** `getSplitsByExpense`. */
  function SplitsOf(ss: seq<ExpenseSplit>, eid: Uuid): (r: seq<ExpenseSplit>)
    ensures forall i :: 0 <= i < |r| ==> r[i].expenseId == eid && r[i] in ss
    ensures forall i :: 0 <= i < |ss| && ss[i].expenseId == eid ==> ss[i] in r
    ensures IsSubsequence(r, ss)
  {
    Filter(ss, SplitOf(eid))
  }

  // ---------------------------------------------------------------------------------------------
  // Invites

  /** The row test of `getInviteById`. */
  function HasInviteId(id: Uuid): Invite -> bool {
    (v: Invite) => v.id == id
  }

  function InviteById(invs: seq<Invite>, id: Uuid): (r: Option<Invite>)
    ensures r.Some? ==> r.value in invs && r.value.id == id
    ensures r.None? <==> forall i :: 0 <= i < |invs| ==> invs[i].id != id
  {
    FirstMatch(invs, HasInviteId(id))
  }

  /** `updateInviteStatus`: every row with that id gets the status. */
  function SetInviteStatus(invs: seq<Invite>, id: Uuid, status: InviteStatus): (r: seq<Invite>)
    ensures |r| == |invs|
    ensures forall i :: 0 <= i < |invs| ==> r[i] == (if invs[i].id == id then invs[i].(status := status) else invs[i])
  {
    Map(invs, (v: Invite) => if v.id == id then v.(status := status) else v)
  }

  /** Setting a status leaves the invite found under the id the same apart from its status. */
  lemma InviteByIdAfterStatus(invs: seq<Invite>, id: Uuid, status: InviteStatus)
    requires InviteById(invs, id).Some?
    ensures InviteById(SetInviteStatus(invs, id, status), id) == Some(InviteById(invs, id).value.(status := status))
  {
    var v := InviteById(invs, id).value;
    var p := HasInviteId(id);
    var k :| 0 <= k < |invs| && invs[k] == v && p(invs[k]) && forall j :: 0 <= j < k ==> !p(invs[j]);
    var r := SetInviteStatus(invs, id, status);
    assert r[k] == v.(status := status);
    forall j | 0 <= j < k ensures !p(r[j]) {
      assert r[j] == invs[j];
    }
    FirstMatchAt(r, p, k);
  }

  /** The WHERE clause of `getInvitesForProfile`: addressed to the profile by id or by email, not sent by it. */
  predicate InvitedProfile(v: Invite, pid: Uuid, email: Option<string>) {
    (v.inviteeProfileId == Some(pid)
     || (v.inviteeEmail.Some? && email.Some? && EqualsIgnoreCase(v.inviteeEmail.value, email.value)))
    && v.inviterProfileId != pid
  }

  /** `getInvitesForProfile`: the matching invites whose household still exists. */
  function InvitesForProfile(invs: seq<Invite>, hs: seq<HouseholdRow>, pid: Uuid, email: Option<string>): (r: seq<Invite>)
    ensures forall i :: 0 <= i < |r| ==> r[i] in invs && InvitedProfile(r[i], pid, email) && r[i].inviterProfileId != pid
    ensures forall i :: 0 <= i < |r| ==> HouseholdById(hs, r[i].householdId).Some?
    ensures forall i :: 0 <= i < |invs| ==>
              InvitedProfile(invs[i], pid, email) && HouseholdById(hs, invs[i].householdId).Some? ==> invs[i] in r
  {
    Filter(invs, (v: Invite) => InvitedProfile(v, pid, email) && HouseholdById(hs, v.householdId).Some?)
  }
}
