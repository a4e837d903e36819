# HomeHero household core in Dafny

HomeHero is a shared-household app. A Spring backend keeps households, their members, chores,
expenses with their per-roommate splits, and household invites. An iOS client keeps the signed-in
session, the selected household and a few input forms. This project models the backend's services and
a handful of the client's state holders and validators, and proves what they promise.

The model is laid out as follows:

- **Tables.** The database is one class, `Store.Database`, with a `seq` field per table: profiles,
  households, memberships, tasks, task-to-household links, expenses, splits and invites. Each mapper
  query is a function over those sequences that states what it selects.
- **Backend services.** Each service operation is a method that changes only the tables it names in
  `modifies`:
  - `ChoreService`: `createChore` and `pickCycledAssignee` (one-off, first member and round-robin
    rotation), and `completeChore`.
  - `ExpenseService`: create with equal splits, update and remove.
  - `HouseholdService`: label choice, home-code generation, join by code, create-and-invite, and leave.
  - `InviteService`: invite by email, and accept or decline behind the invitee check.
  - `CurrentUsers`: the header fallback for the acting profile.
- **JDBC debug endpoint.** `JdbcDebug` models the parsing of a PostgreSQL JDBC URL into host and port,
  the redaction of credentials, and the endpoint's branch for a missing host or port.
- **iOS client.** The client parts are classes where the source mutates fields and functions where it
  only computes:
  - `HouseholdSessions`: selection reconciliation and input guards;
  - `JoinSheets`: the home-code sanitiser and the join sheet;
  - `ProfilePage`: invite filtering and the name and email fallbacks;
  - `CreateAccount`: sign-up validation;
  - `AppSessions`: the login toggle.
- **Library semantics.** The Java and Swift string operations the code uses are written out as functions:
  - `JavaText` has `trim`, `isBlank`, `split` (which drops trailing empty strings), `indexOf` and
    `Integer.parseInt` (32-bit range, ASCII digits);
  - `SwiftText` has whitespace trimming and `isNumber`;
  - `Uuids` has `UUID.fromString` and its canonical form.

A method that changes state is proved against a function of the old state. For example,
`CreateChore`'s result is `CreateResult`, which combines `ValidationError` and `AssignmentRule`. The
lemmas next to each function then state what the source promises, for example:

- the assignee is always a member;
- successive rotating chores cycle through the candidates;
- completing a chore removes it from the rotation count;
- splits sum to the cost;
- a household is deleted exactly when its last member leaves;
- a parsed canonical UUID round-trips.

Fresh ids (`UUID.randomUUID`) are parameters, and the random home-code draws are a sequence of 25
values given by the caller. The chore's impact score comes from a language-model call in the source;
here it is an integer parameter. The remote calls of the client are `Fetch` values passed in: either
the decoded reply or the error message.

## Model

| member | source | states |
|---|---|---|
| Store.HouseholdById | Backend/src/main/java/com/HomeHero/demo/persistance/HouseholdMapper.java:31-42 | the result is a row of the table with the asked id, and it is absent exactly when no row has that id |
| Store.HouseholdByHomeCode | Backend/src/main/java/com/HomeHero/demo/persistance/HouseholdMapper.java:50-62 | the result is a row with the asked home code, absent exactly when no household uses the code |
| Store.DeleteHousehold | Backend/src/main/java/com/HomeHero/demo/persistance/HouseholdMapper.java:79-83 | no row with the id survives and every row with another id does |
| Store.ProfileById | Backend/src/main/java/com/HomeHero/demo/persistance/ProfileMapper.java:17-18 | a found profile is in the table with the asked id; none is found exactly when no profile has it |
| Store.ProfileByEmail | Backend/src/main/java/com/HomeHero/demo/persistance/ProfileMapper.java:20-26 | a found profile's email equals the asked one ignoring case; none is found exactly when no profile matches |
| Store.Credit | Backend/src/main/java/com/HomeHero/demo/service/ChoreService.java:161-164 | only the rows of the credited profile change, and only their score, which rises by the given amount |
| Store.MemberRows | Backend/src/main/java/com/HomeHero/demo/persistance/HouseholdMemberMapper.java:35-42 | exactly the membership rows of the household |
| Store.JoinProfilesRows | Backend/src/main/java/com/HomeHero/demo/persistance/HouseholdMemberMapper.java:35-42 | every joined profile comes from a membership row and every member with a profile appears |
| Store.Members | Backend/src/main/java/com/HomeHero/demo/persistance/HouseholdMemberMapper.java:35-42 | the members are ordered by first then last name, nulls last, and are a permutation of the joined profiles |
| Store.RemoveMember | Backend/src/main/java/com/HomeHero/demo/persistance/HouseholdMemberMapper.java:22-26 | the (household, profile) rows are gone and every other row stays |
| Store.TaskById | Backend/src/main/java/com/HomeHero/demo/persistance/ChoreMapper.java:40-58 | a found task has the asked id; none is found exactly when no task has it |
| Store.LinkRows | Backend/src/main/java/com/HomeHero/demo/persistance/ChoreMapper.java:32-34 | exactly the link rows of the household: every kept row belongs to it and every row of it is kept |
| Store.JoinTasks | Backend/src/main/java/com/HomeHero/demo/persistance/ChoreMapper.java:32-34 | each link row yields at most one task, taken from the task table |
| Store.JoinTasksSound | Backend/src/main/java/com/HomeHero/demo/persistance/ChoreMapper.java:32-34 | every joined task is the task one of the link rows names |
| Store.JoinTasksComplete | Backend/src/main/java/com/HomeHero/demo/persistance/ChoreMapper.java:32-34 | every link row whose task exists contributes that task to the join |
| Store.JoinLinkRows | Backend/src/main/java/com/HomeHero/demo/persistance/ChoreMapper.java:32-34 | the household's joined tasks are exactly the existing tasks named by its link rows |
| Store.JoinTasksAppend | Backend/src/main/java/com/HomeHero/demo/persistance/ChoreMapper.java:15-38 | the join distributes over concatenated link lists |
| Store.LinkedChores | Backend/src/main/java/com/HomeHero/demo/persistance/ChoreMapper.java:15-38 | every chore of a household is the task named by one of its link rows, and every existing task a link row of the household names is among its chores |
| Store.LinkedProfileId | Backend/src/main/java/com/HomeHero/demo/persistance/TaskToHouseholdMapper.java:32-39 | absent exactly when the task is not linked to the household; otherwise the profile of one of its link rows |
| Store.Unlink | Backend/src/main/java/com/HomeHero/demo/persistance/TaskToHouseholdMapper.java:25-30 | every link of the task to the household is removed and every other link stays |
| Store.UnlinkRemovesLink | Backend/src/main/java/com/HomeHero/demo/persistance/TaskToHouseholdMapper.java:25-39 | after unlinking, the link lookup finds nothing |
| Store.UnlinkCountPositive | Backend/src/main/java/com/HomeHero/demo/persistance/TaskToHouseholdMapper.java:25-39 | when a link was found, the delete removes at least one row |
| Store.ExpenseById | Backend/src/main/java/com/HomeHero/demo/persistance/ExpenseMapper.java:18-30 | a found expense has the asked id; none is found exactly when no row has it |
| Store.SplitsOf | Backend/src/main/java/com/HomeHero/demo/persistance/ExpenseSplitMapper.java:19-28 | exactly the split rows of the expense, in table order |
| Store.InviteById | Backend/src/main/java/com/HomeHero/demo/service/HouseholdInviteService.java:60-63 | a found invite has the asked id; none is found exactly when no row has it |
| Store.SetInviteStatus | Backend/src/main/java/com/HomeHero/demo/service/HouseholdInviteService.java:80 | only the invite with the id changes, and only its status |
| Store.InviteByIdAfterStatus | Backend/src/main/java/com/HomeHero/demo/service/HouseholdInviteService.java:80 | re-reading the invite after a status update gives the old invite with the new status |
| Store.InvitesForProfile | Backend/src/main/java/com/HomeHero/demo/persistance/HouseholdInviteMapper.java:23-36 | exactly the invites addressed to the profile by id or email, not sent by it, of an existing household |
| ChoreService.CollectIds | Backend/src/main/java/com/HomeHero/demo/service/ChoreService.java:178-186 | the member ids in member order |
| ChoreService.SelectCandidates | Backend/src/main/java/com/HomeHero/demo/service/ChoreService.java:204-218 | the members named in the rotation list, in member order, or all members when the list is null or empty |
| ChoreService.CountAssigned | Backend/src/main/java/com/HomeHero/demo/service/ChoreService.java:222-236 | the number of linked chores with the same trimmed title ignoring case whose assignee is a candidate |
| ChoreService.PickCycledAssignee | Backend/src/main/java/com/HomeHero/demo/service/ChoreService.java:167-240 | the assignment rule applied to the household's ordered members and its still-linked chores |
| ChoreService.MemberIds | Backend/src/main/java/com/HomeHero/demo/service/ChoreService.java:178-186 | one id per member, in order |
| ChoreService.Candidates | Backend/src/main/java/com/HomeHero/demo/service/ChoreService.java:204-218 | the candidates are an order-preserving selection of the member ids |
| ChoreService.Rotate | Backend/src/main/java/com/HomeHero/demo/service/ChoreService.java:215-239 | fails exactly when there are no candidates; otherwise one of them |
| ChoreService.AssigneeIsMember | Backend/src/main/java/com/HomeHero/demo/service/ChoreService.java:167-240 | a chosen assignee is always a member, and a candidate when rotating |
| ChoreService.NoMembersFails | Backend/src/main/java/com/HomeHero/demo/service/ChoreService.java:168-186 | with no members the assignment fails before any other rule |
| ChoreService.OneOffAssignment | Backend/src/main/java/com/HomeHero/demo/service/ChoreService.java:173-198 | a non-repeating chore needs an assignee who is a member, gets exactly that one, and ignores the rotation fields and existing chores |
| ChoreService.RepeatingGoesToFirstMember | Backend/src/main/java/com/HomeHero/demo/service/ChoreService.java:200-202 | a repeating chore without rotation goes to the first member, who is least by first then last name |
| ChoreService.RotatingAssignment | Backend/src/main/java/com/HomeHero/demo/service/ChoreService.java:204-239 | no candidates is an error; otherwise candidate number k mod n, k counting matching existing chores |
| ChoreService.CandidatesAre | Backend/src/main/java/com/HomeHero/demo/service/ChoreService.java:204-218 | an id is a candidate exactly when it is a member and the list is absent, empty or names it |
| ChoreService.RotationCountAppend | Backend/src/main/java/com/HomeHero/demo/service/ChoreService.java:222-236 | each added matching chore raises the count by one |
| ChoreService.RotationCycles | Backend/src/main/java/com/HomeHero/demo/service/ChoreService.java:204-239 | after m more matching chores the assignee moves m places round the candidates |
| ChoreService.ValidationPasses | Backend/src/main/java/com/HomeHero/demo/service/ChoreService.java:65-82 | validation passes exactly when the household exists, a body is given, the trimmed title is non-empty, dueAt is not combined with a range and the end is not before the start |
| ChoreService.BuildChore | Backend/src/main/java/com/HomeHero/demo/service/ChoreService.java:84-96 | the title is stored trimmed, a null repeat rule becomes never, a null rotate flag false, and the assignee and impact are the chosen ones |
| ChoreService.TaskRow | Backend/src/main/java/com/HomeHero/demo/persistance/ChoreMapper.java:60-66 | the task row carries the chore's id, title and assignee |
| ChoreService.Validate | Backend/src/main/java/com/HomeHero/demo/service/ChoreService.java:65-82 | the first failing validation, in the source's order |
| ChoreService.CreateChore | Backend/src/main/java/com/HomeHero/demo/service/ChoreService.java:64-133 | on failure no table changes; on success one task row and one link row to the chosen assignee are appended |
| ChoreService.CreatedAssigneeIsMember | Backend/src/main/java/com/HomeHero/demo/service/ChoreService.java:121-129 | a created chore's assignee is never null and is a member, so the fallback profile id is never used |
| ChoreService.TaskByIdSnoc | Backend/src/main/java/com/HomeHero/demo/persistance/ChoreMapper.java:40-58 | appending a task with another id does not change a lookup |
| ChoreService.TaskByIdFresh | Backend/src/main/java/com/HomeHero/demo/persistance/ChoreMapper.java:40-58 | a task appended with a fresh id is found by it |
| ChoreService.JoinTasksSnoc | Backend/src/main/java/com/HomeHero/demo/persistance/ChoreMapper.java:32-34 | a task no link points to does not appear in a join |
| ChoreService.LinkRowsFresh | Backend/src/main/java/com/HomeHero/demo/persistance/ChoreMapper.java:32-34 | selecting link rows keeps a fresh task id fresh |
| ChoreService.LinkedChoresAfterCreate | Backend/src/main/java/com/HomeHero/demo/service/ChoreService.java:125-129 | a created chore is added at the end of its household's chore list |
| ChoreService.OtherChoresAfterCreate | Backend/src/main/java/com/HomeHero/demo/service/ChoreService.java:125-129 | other households' chore lists are unchanged by a creation |
| ChoreService.CreateAdvancesRotation | Backend/src/main/java/com/HomeHero/demo/service/ChoreService.java:204-239 | successive rotating creations of one title assign the candidates in turn |
| ChoreService.AdvanceRule | Backend/src/main/java/com/HomeHero/demo/service/ChoreService.java:222-239 | one more matching chore moves the assignee from candidate k mod n to candidate k+1 mod n |
| ChoreService.NewChoreCounts | Backend/src/main/java/com/HomeHero/demo/service/ChoreService.java:222-235 | a chore stored under the trimmed title counts towards that title's rotation |
| ChoreService.Ids | Backend/src/main/java/com/HomeHero/demo/service/ChoreService.java:178-186 | the ids of a task list, position by position |
| ChoreService.CompleteChore | Backend/src/main/java/com/HomeHero/demo/service/ChoreService.java:135-165 | each failure leaves the tables unchanged; success unlinks the chore and credits its impact to the linked profile only when positive |
| ChoreService.CompleteTwiceFails | Backend/src/main/java/com/HomeHero/demo/service/ChoreService.java:144-147 | after a completion a second one fails with chore not found |
| ChoreService.CreditOnce | Backend/src/main/java/com/HomeHero/demo/service/ChoreService.java:161-164 | completion credits exactly the linked profile, once, by the impact |
| ChoreService.JoinTasksUnlink | Backend/src/main/java/com/HomeHero/demo/persistance/ChoreMapper.java:32-34 | joining after removing a task's links equals removing the task after joining |
| ChoreService.LinkedChoresAfterComplete | Backend/src/main/java/com/HomeHero/demo/service/ChoreService.java:155-158 | completing a chore removes exactly that chore from the household's list, so it no longer counts |
| ChoreService.FilterCommute | Backend/src/main/java/com/HomeHero/demo/service/ChoreService.java:155-158 | two successive row selections equal the selection by both conditions |
| ExpenseService.ExpenseCheck | Backend/src/main/java/com/HomeHero/demo/service/ExpenseService.java:37-38 | no error exactly when the cost is positive and the item is present and not blank |
| ExpenseService.CostCheckedFirst | Backend/src/main/java/com/HomeHero/demo/service/ExpenseService.java:37 | a non-positive cost is reported whatever the item |
| ExpenseService.SplitRows | Backend/src/main/java/com/HomeHero/demo/service/ExpenseService.java:50-59 | no splits for a null or empty list; otherwise one per listed profile, in order, for the new expense, each cost divided by n |
| ExpenseService.CreateExpense | Backend/src/main/java/com/HomeHero/demo/service/ExpenseService.java:36-62 | a rejected expense changes nothing; otherwise the expense with the given fields is appended once and its splits after it |
| ExpenseService.TotalOfEqual | Backend/src/main/java/com/HomeHero/demo/service/ExpenseService.java:51-57 | n equal amounts sum to n times the amount |
| ExpenseService.SplitsSumToCost | Backend/src/main/java/com/HomeHero/demo/service/ExpenseService.java:51-57 | in exact arithmetic the split amounts add up to the cost |
| ExpenseService.SplitProfilesAreListed | Backend/src/main/java/com/HomeHero/demo/service/ExpenseService.java:51-57 | the split profiles are exactly the listed ones in order; the payer is neither added nor removed |
| ExpenseService.SplitsReadBack | Backend/src/main/java/com/HomeHero/demo/service/ExpenseService.java:74-76 | reading a new expense's splits gives back exactly the rows created |
| ExpenseService.UpdateRows | Backend/src/main/java/com/HomeHero/demo/persistance/ExpenseMapper.java:55-61 | only the item and cost of the expense with the id change |
| ExpenseService.UpdateExpense | Backend/src/main/java/com/HomeHero/demo/service/ExpenseService.java:64-67 | only the expense table changes, by the update above |
| ExpenseService.DeleteRows | Backend/src/main/java/com/HomeHero/demo/persistance/ExpenseMapper.java:69-70 | the expense row is removed and every other row kept in order |
| ExpenseService.RemoveExpense | Backend/src/main/java/com/HomeHero/demo/service/ExpenseService.java:69-72 | only the expense table changes, by the delete above |
| ExpenseService.UpdateReadsBack | Backend/src/main/java/com/HomeHero/demo/service/ExpenseService.java:64-67 | re-reading an updated expense gives the old one with the new item and cost |
| ExpenseService.RemoveReadsBack | Backend/src/main/java/com/HomeHero/demo/service/ExpenseService.java:69-72 | a removed expense can no longer be read |
| HouseholdService.View | Backend/src/main/java/com/HomeHero/demo/persistance/HouseholdMapper.java:31-42 | the household read back has the address as both name and address and a score of 0 |
| HouseholdService.Label | Backend/src/main/java/com/HomeHero/demo/service/HouseholdService.java:48-53 | the trimmed address when that trim is non-empty, else the trimmed name when non-empty, else nothing; a label is never empty |
| HouseholdService.TrimmedIsTrimmed | Backend/src/main/java/com/HomeHero/demo/service/HouseholdService.java:48-53 | a trimmed string has no outer characters up to a space |
| HouseholdService.PowSix | Backend/src/main/java/com/HomeHero/demo/service/HouseholdService.java:121-122 | ten to the sixth is the code range |
| HouseholdService.FormatCode | Backend/src/main/java/com/HomeHero/demo/service/HouseholdService.java:121-122 | a draw below one million formats as six ASCII digits |
| HouseholdService.FormatCodeValue | Backend/src/main/java/com/HomeHero/demo/service/HouseholdService.java:121-122 | the six digits read back as the draw, so the padding is leading zeros |
| HouseholdService.FirstFreeCodeFound | Backend/src/main/java/com/HomeHero/demo/service/HouseholdService.java:118-128 | a code the search returns is six digits, unused, and one of the remaining draws |
| HouseholdService.FirstFreeCodeError | Backend/src/main/java/com/HomeHero/demo/service/HouseholdService.java:118-128 | the search can only fail with the exhaustion error |
| HouseholdService.FirstFreeCodeExhausted | Backend/src/main/java/com/HomeHero/demo/service/HouseholdService.java:118-128 | the search fails exactly when every one of the remaining draws collides with a used code |
| HouseholdService.GenerateUniqueHomeCode | Backend/src/main/java/com/HomeHero/demo/service/HouseholdService.java:118-128 | the first unused code among the 25 draws, or the exhaustion error |
| HouseholdService.CreateHousehold | Backend/src/main/java/com/HomeHero/demo/service/HouseholdService.java:45-64 | a failed creation changes nothing; a successful one appends one row and returns it as read back |
| HouseholdService.CreatedHousehold | Backend/src/main/java/com/HomeHero/demo/service/HouseholdService.java:55-63 | the new household is found by its id, has the label as name and address, score 0 and an unused six-digit code |
| HouseholdService.JoinTarget | Backend/src/main/java/com/HomeHero/demo/service/HouseholdService.java:66-78 | a join target is an existing household, with a six-digit code |
| HouseholdService.AddMember | Backend/src/main/java/com/HomeHero/demo/service/HouseholdService.java:97-99 | one membership row is appended, with no duplicate check |
| HouseholdService.AddMemberCounts | Backend/src/main/java/com/HomeHero/demo/service/HouseholdService.java:97-99 | the household's member count rises by one |
| HouseholdService.JoinHouseholdByHomeCode | Backend/src/main/java/com/HomeHero/demo/service/HouseholdService.java:66-82 | a rejected join leaves the memberships unchanged; an accepted one adds one membership of the profile |
| HouseholdService.JoinRejectsMalformed | Backend/src/main/java/com/HomeHero/demo/service/HouseholdService.java:70-73 | a code whose trimmed form is not six ASCII digits is refused |
| HouseholdService.JoinPaddedCode | Backend/src/main/java/com/HomeHero/demo/service/HouseholdService.java:70-78 | a padded six-digit code joins its household, or fails as an invalid home code when no household uses it |
| HouseholdService.NewInvites | Backend/src/main/java/com/HomeHero/demo/service/HouseholdService.java:89-93 | at most one invite per roommate email, and every invite created is pending, for the new household, from its creator |
| HouseholdService.CreateHouseholdAndInvite | Backend/src/main/java/com/HomeHero/demo/service/HouseholdService.java:84-95 | on success the one new household row is appended and its read-back view returned, the creator becomes a member and the invites of the emails are appended in order; on failure nothing changes |
| HouseholdService.AdmitCreator | Backend/src/main/java/com/HomeHero/demo/service/HouseholdService.java:86-93 | the creator gains one membership row, and the invites appended are none for a null list, else those its emails produce in order |
| HouseholdService.InviteAll | Backend/src/main/java/com/HomeHero/demo/service/HouseholdService.java:89-93 | the invites appended are those the emails produce, in list order |
| HouseholdService.InviteNext | Backend/src/main/java/com/HomeHero/demo/service/HouseholdService.java:90-92 | one turn of the loop extends the invites by the next email's invite, if any |
| HouseholdService.LeaveHousehold | Backend/src/main/java/com/HomeHero/demo/service/HouseholdService.java:105-116 | the membership is removed and the household deleted when no member remains |
| HouseholdService.LeaverWasLast | Backend/src/main/java/com/HomeHero/demo/service/HouseholdService.java:110-114 | no member remains exactly when every membership row of the household was the leaver's |
| HouseholdService.LeaveDeletesOnlyWhenEmpty | Backend/src/main/java/com/HomeHero/demo/service/HouseholdService.java:105-116 | the household disappears exactly when the leaver was its only member, and no other household is touched |
| InviteService.NewInviteContents | Backend/src/main/java/com/HomeHero/demo/service/HouseholdInviteService.java:32-48 | no invite for a null or blank email; otherwise a pending invite with the trimmed email, the household, the inviter and the matching profile's id when one exists |
| InviteService.NewInviteHeader | Backend/src/main/java/com/HomeHero/demo/service/HouseholdInviteService.java:38-44 | a created invite is pending, for the given household, from the given inviter |
| InviteService.InviteByEmail | Backend/src/main/java/com/HomeHero/demo/service/HouseholdInviteService.java:32-48 | the invite, if any, is appended and nothing else changes |
| InviteService.ResponseAllowed | Backend/src/main/java/com/HomeHero/demo/service/HouseholdInviteService.java:58-77 | a response is allowed exactly when invite and actor exist and the actor is the invitee by id or email ignoring case |
| InviteService.StrangerRefused | Backend/src/main/java/com/HomeHero/demo/service/HouseholdInviteService.java:71-77 | an actor with another id and no email is not authorised |
| InviteService.AcceptInvite | Backend/src/main/java/com/HomeHero/demo/service/HouseholdInviteService.java:58-84 | a refused accept changes nothing; an allowed one sets accepted and adds the actor to the invite's household |
| InviteService.DeclineInvite | Backend/src/main/java/com/HomeHero/demo/service/HouseholdInviteService.java:86-108 | a refused decline changes nothing; an allowed one sets declined and never touches memberships |
| InviteService.RespondingKeepsAuthorisation | Backend/src/main/java/com/HomeHero/demo/service/HouseholdInviteService.java:58-83 | no status check: a response leaves the invite answerable again by the same actor |
| InviteService.AcceptTwiceAddsTwo | Backend/src/main/java/com/HomeHero/demo/service/HouseholdInviteService.java:83 | accepting twice adds two membership rows |
| CurrentUsers.ResolveProfileId | Backend/src/main/java/com/HomeHero/demo/util/CurrentUser.java:34-43 | null, blank or unparseable text gives the default id; otherwise the parse of the trimmed text |
| CurrentUsers.ResolvedIsDefaultOrParsed | Backend/src/main/java/com/HomeHero/demo/util/CurrentUser.java:34-43 | the result is the default id or a parse of the header; the function is total |
| CurrentUsers.ResolveFormatted | Backend/src/main/java/com/HomeHero/demo/util/CurrentUser.java:38-39 | a padded canonical UUID resolves to that UUID |
| CurrentUsers.CurrentUser.constructor | Backend/src/main/java/com/HomeHero/demo/util/CurrentUser.java:21-24 | the profile id is fixed once from the header |
| Uuids.ParseUuid | Backend/src/main/java/com/HomeHero/demo/util/CurrentUser.java:39 | a parsed UUID came from at most 36 characters in five dash-separated groups |
| Uuids.FormatUuid | Backend/src/main/java/com/HomeHero/demo/util/CurrentUser.java:39 | the canonical form has 36 characters |
| Uuids.ParseFormat | Backend/src/main/java/com/HomeHero/demo/util/CurrentUser.java:39 | parsing the canonical form gives the UUID back |
| Uuids.FormatInjective | Backend/src/main/java/com/HomeHero/demo/util/CurrentUser.java:39 | distinct UUIDs have distinct canonical forms |
| JdbcDebug.ValueLength | Backend/src/main/java/com/HomeHero/demo/controller/DebugController/DbDebugController.java:125-131 | the value runs up to the next ampersand or the end |
| JdbcDebug.RedactJdbcUrl | Backend/src/main/java/com/HomeHero/demo/controller/DebugController/DbDebugController.java:125-131 | only a null URL redacts to null |
| JdbcDebug.RedactNoMatch | Backend/src/main/java/com/HomeHero/demo/controller/DebugController/DbDebugController.java:125-131 | text with no credential key is left unchanged |
| JdbcDebug.RedactValue | Backend/src/main/java/com/HomeHero/demo/controller/DebugController/DbDebugController.java:125-131 | a key matched ignoring case keeps its spelling and its value up to the next ampersand becomes three stars |
| JdbcDebug.RedactUrlNoCredentials | Backend/src/main/java/com/HomeHero/demo/controller/DebugController/DbDebugController.java:125-131 | a URL without password= or user= is returned as is |
| JdbcDebug.Before | Backend/src/main/java/com/HomeHero/demo/controller/DebugController/DbDebugController.java:76-82 | the longest separator-free prefix |
| JdbcDebug.Authority | Backend/src/main/java/com/HomeHero/demo/controller/DebugController/DbDebugController.java:72-78 | absent exactly when the prefix does not occur; otherwise it contains no slash |
| JdbcDebug.FirstEntry | Backend/src/main/java/com/HomeHero/demo/controller/DebugController/DbDebugController.java:81-82 | the trimmed text before the first comma, absent when empty |
| JdbcDebug.FirstEntryAsWrittenThrows | Backend/src/main/java/com/HomeHero/demo/controller/DebugController/DbDebugController.java:81 | the first-entry step as written throws exactly on a non-empty run of commas and otherwise agrees with the corrected step |
| JdbcDebug.CommaOnlyAuthority | Backend/src/main/java/com/HomeHero/demo/controller/DebugController/DbDebugController.java:76-82 | the URL jdbc:postgresql://,/db makes the step and the whole parse as written throw, while the corrected step finds no entry and the corrected parse no host or port |
| JdbcDebug.HostPortAsWrittenDiffers | Backend/src/main/java/com/HomeHero/demo/controller/DebugController/DbDebugController.java:67-106 | the parse as written throws an index error exactly when the authority is a non-empty run of commas, where the corrected parse finds no host; on every other URL the two agree |
| JdbcDebug.ParseEntry | Backend/src/main/java/com/HomeHero/demo/controller/DebugController/DbDebugController.java:84-101 | the host and port of one entry, by the branches below |
| JdbcDebug.ParsePostgresHostPort | Backend/src/main/java/com/HomeHero/demo/controller/DebugController/DbDebugController.java:67-106 | the redacted URL with the host and port the URL names, or the parse error, using the corrected first-entry step |
| JdbcDebug.JdbcInfoShape | Backend/src/main/java/com/HomeHero/demo/controller/DebugController/DbDebugController.java:69-105 | the result always carries the redacted URL, and host and port are present together |
| JdbcDebug.NullUrl | Backend/src/main/java/com/HomeHero/demo/controller/DebugController/DbDebugController.java:69-71 | a null URL yields only the URL entry |
| JdbcDebug.DebugDbConnectivity | Backend/src/main/java/com/HomeHero/demo/controller/DebugController/DbDebugController.java:29-51 | a missing host or port records the error and skips the probe; otherwise the probe targets the parsed host and port |
| JdbcDebug.AuthorityAfterPrefix | Backend/src/main/java/com/HomeHero/demo/controller/DebugController/DbDebugController.java:76-78 | the authority is the text after the prefix up to the first slash |
| JdbcDebug.NoPrefixNoHost | Backend/src/main/java/com/HomeHero/demo/controller/DebugController/DbDebugController.java:72-74 | without the prefix there is no host or port |
| JdbcDebug.SplitTwo | Backend/src/main/java/com/HomeHero/demo/controller/DebugController/DbDebugController.java:96-100 | splitting host:port at the colon gives the two fields |
| JdbcDebug.EntryWithoutPort | Backend/src/main/java/com/HomeHero/demo/controller/DebugController/DbDebugController.java:96-100 | an entry without a colon gets port 5432 |
| JdbcDebug.EntryTrailingColon | Backend/src/main/java/com/HomeHero/demo/controller/DebugController/DbDebugController.java:96-100 | an entry with only a trailing colon also gets port 5432 |
| JdbcDebug.EntryWithPort | Backend/src/main/java/com/HomeHero/demo/controller/DebugController/DbDebugController.java:96-100 | host:port gives the host and the parsed port, and a non-numeric port throws |
| JdbcDebug.BracketedWithoutPort | Backend/src/main/java/com/HomeHero/demo/controller/DebugController/DbDebugController.java:88-94 | a bracketed host not followed by a colon gets port 5432 |
| JdbcDebug.BracketedWithPort | Backend/src/main/java/com/HomeHero/demo/controller/DebugController/DbDebugController.java:88-94 | a bracketed host followed by a colon gets the parsed port, or throws |
| JdbcDebug.BracketedUnclosed | Backend/src/main/java/com/HomeHero/demo/controller/DebugController/DbDebugController.java:88-90 | a missing closing bracket yields no host or port |
| JdbcDebug.ParsePlainUrl | Backend/src/main/java/com/HomeHero/demo/controller/DebugController/DbDebugController.java:67-106 | a URL naming host and port gives them back |
| HouseholdSessions.SelectionIn | Frontend/Frontend/State/HouseholdSession.swift:15-18 | nil without a selection or when the id is not listed; otherwise the first household with that id |
| HouseholdSessions.Reconcile | Frontend/Frontend/State/HouseholdSession.swift:39-46 | a still-listed selection is kept, otherwise the first id, nil only for an empty list |
| HouseholdSessions.ReconciledSelectionResolves | Frontend/Frontend/State/HouseholdSession.swift:15-46 | after reconciliation the selection resolves exactly when the list is non-empty |
| HouseholdSessions.Refreshed | Frontend/Frontend/State/HouseholdSession.swift:27-53 | loading ends, the error is cleared exactly when all fetches succeed, and the reconciled selection is persisted when it changes |
| HouseholdSessions.Guarded | Frontend/Frontend/State/HouseholdSession.swift:60-94 | a refused input sets the guard message and sends nothing; a returned household is selected and persisted after the refresh |
| HouseholdSessions.CreateGuard | Frontend/Frontend/State/HouseholdSession.swift:60-68 | a blank address sets Address is required. and sends nothing; otherwise the trimmed address is sent |
| HouseholdSessions.JoinSelectsJoined | Frontend/Frontend/State/HouseholdSession.swift:79-94 | a code not six long after trimming sets the code message; a joined household ends selected |
| HouseholdSessions.HouseholdSession.constructor | Frontend/Frontend/State/HouseholdSession.swift:20-25 | the stored selection is restored and nothing is loaded |
| HouseholdSessions.HouseholdSession.PersistSelection | Frontend/Frontend/State/HouseholdSession.swift:96-102 | the stored value follows the selection and is removed for nil |
| HouseholdSessions.HouseholdSession.SelectHousehold | Frontend/Frontend/State/HouseholdSession.swift:55-58 | the id is selected and persisted |
| HouseholdSessions.HouseholdSession.Refresh | Frontend/Frontend/State/HouseholdSession.swift:27-53 | the new state is the refreshed state above |
| HouseholdSessions.HouseholdSession.CreateHousehold | Frontend/Frontend/State/HouseholdSession.swift:60-77 | the new state, result and request are the create step above |
| HouseholdSessions.HouseholdSession.JoinHousehold | Frontend/Frontend/State/HouseholdSession.swift:79-94 | the new state, result and request are the join step above |
| JoinSheets.Sanitize | Frontend/Frontend/Components/JoinHouseholdPlaceholderSheet.swift:16-19 | only numerics kept, at most six, and exactly the first six of the filtered input |
| JoinSheets.SanitizeIdempotent | Frontend/Frontend/Components/JoinHouseholdPlaceholderSheet.swift:16-19 | sanitising twice equals sanitising once |
| JoinSheets.SanitizedIsTrimmed | Frontend/Frontend/Components/JoinHouseholdPlaceholderSheet.swift:16-19 | a sanitised code is unchanged by either trim |
| JoinSheets.AsciiInputGivesHomeCode | Frontend/Frontend/Components/JoinHouseholdPlaceholderSheet.swift:16-19 | with ASCII numerals only, a six-long sanitised code passes the backend format check |
| JoinSheets.NonAsciiCodeRefused | Backend/src/main/java/com/HomeHero/demo/service/HouseholdService.java:70-73 | a code the sanitiser keeps, six long but not six ASCII digits, passes the client's length guard and is sent unchanged, and the backend refuses its format |
| JoinSheets.ArabicIndicCodeKept | Frontend/Frontend/Components/JoinHouseholdPlaceholderSheet.swift:16-19 | such a code exists: six Arabic-Indic digits survive the sanitiser but are not ASCII digits |
| JoinSheets.JoinSheet.constructor | Frontend/Frontend/Components/JoinHouseholdPlaceholderSheet.swift:7-8 | the sheet starts with an empty code, not joining |
| JoinSheets.JoinSheet.EditCode | Frontend/Frontend/Components/JoinHouseholdPlaceholderSheet.swift:16-19 | the stored code is the sanitised input |
| JoinSheets.JoinSheet.Join | Frontend/Frontend/Components/JoinHouseholdPlaceholderSheet.swift:56-63 | the session takes the join step, joining ends, and the sheet dismisses only when a household is returned |
| ProfilePage.InvitesToShow | Frontend/Frontend/Pages/ProfilePageView.swift:23-34 | an order-preserving subsequence holding exactly the invites not sent by the user and of the selected household, if any |
| ProfilePage.FilterSame | Frontend/Frontend/Pages/ProfilePageView.swift:23-34 | filters by pointwise equal predicates agree |
| ProfilePage.FullName | Frontend/Frontend/Pages/ProfilePageView.swift:499-504 | the non-empty names joined by one space |
| ProfilePage.DisplayName | Frontend/Frontend/Pages/ProfilePageView.swift:499-504 | the trimmed non-empty first and last names joined by one space, or Profile when both are empty |
| ProfilePage.NonEmptyPair | Frontend/Frontend/Pages/ProfilePageView.swift:502 | dropping empty names from a pair keeps the non-empty ones in order |
| ProfilePage.DisplayEmail | Frontend/Frontend/Pages/ProfilePageView.swift:506-512 | the trimmed backend email, else the trimmed auth email, else the placeholder; never empty |
| ProfilePage.UserScoreValue | Frontend/Frontend/Pages/ProfilePageView.swift:514-516 | the profile's score, or 0 when the profile or score is missing |
| CreateAccount.ValidationMessage | Frontend/Frontend/CreateAccountView.swift:231-248 | nil while a field is empty; otherwise the first failing check in the order email, length, match, agreement |
| CreateAccount.MessageMatchesSubmit | Frontend/Frontend/CreateAccountView.swift:227-248 | a submittable form shows no message, and for a complete form no message means submittable |
| CreateAccount.MatchNeedsNoTrim | Frontend/Frontend/CreateAccountView.swift:219-221 | passwords are compared untrimmed, so a trailing space breaks the match |
| CreateAccount.AttemptCreate | Frontend/Frontend/CreateAccountView.swift:250-253 | the coming-soon flag is raised only when the form can be submitted and is otherwise kept |
| AppSessions.AppSession.constructor | Frontend/Frontend/AppSession.swift:5 | a new session is logged out |
| AppSessions.AppSession.Login | Frontend/Frontend/AppSession.swift:11-17 | succeeds exactly for sudo/sudo, then logged in; a failure leaves the flag unchanged |
| AppSessions.AppSession.Logout | Frontend/Frontend/AppSession.swift:19-21 | logged out from any state |
| JavaText.SplitEmptyIff | Backend/src/main/java/com/HomeHero/demo/controller/DebugController/DbDebugController.java:81 | split gives an empty array exactly for a non-empty run of separators |
| JavaText.FieldsOfJoin | Backend/src/main/java/com/HomeHero/demo/controller/DebugController/DbDebugController.java:96-100 | splitting a join of separator-free parts gives the parts back |
| JavaText.ParseInt | Backend/src/main/java/com/HomeHero/demo/controller/DebugController/DbDebugController.java:99 | a parsed port is within 32 bits (ASCII digits only) |
| JavaText.ParseIntOfDecimal | Backend/src/main/java/com/HomeHero/demo/controller/DebugController/DbDebugController.java:99 | parsing the decimal form of a non-negative int gives it back |
| MemberOrder.SortByNameSorted | Backend/src/main/java/com/HomeHero/demo/persistance/HouseholdMemberMapper.java:40 | the member sort yields a list ordered by name that is a permutation of its input |
| MemberOrder.FirstIsLeast | Backend/src/main/java/com/HomeHero/demo/persistance/HouseholdMemberMapper.java:40 | the first of a sorted list is least by name |

## Left out

- The chore impact scorer (`getChoreImpactFromOpenRouter`, an HTTP call with a fallback of 5) is out of scope. The scorer's answer is an `impact` parameter of `CreateChore`.
- The Jackson serialisation of `rotateWithProfileIds` into the chore's JSON column is not modelled. The chore keeps the id list itself.
- `UUID.randomUUID` and `ThreadLocalRandom` are not modelled. Fresh ids are parameters, and `CreateChore` and `ExpenseService.CreateExpense` do not check that the id is fresh (the source does not either). The 25 home-code draws are a `draws` sequence.
- `ChoreMapper.getChoreByHouseholdAndTaskId`, used to re-read the created chore, is not part of this model. `ChoreService.CreateChore` returns the chore it built.
- Several mapper methods are not part of this model: `ProfileMapper.incrementUserScore`, `HouseholdInviteMapper.getInviteById` and `HouseholdInviteMapper.updateInviteStatus`. They are modelled by what their names say: `Store.Credit`, `Store.InviteById` and `Store.SetInviteStatus`.
- `ExpenseSplitMapper` inserts into `expense_to_split` but reads from `expense_split`. The model uses one split table, so `ExpenseService.SplitsReadBack` assumes the two tables are the same.
- SQL ordering is only partly modelled. The member order by first and last name is modelled, using code-point comparison rather than the database collation. The `created_at DESC` order of chores, invites and households is not: those lists are in insertion order, and no rule depends on their order.
- A member without an id is not modelled. The member query is an inner join on the profile's primary key, so every member has a profile with an id. `ChoreService.NoMembersFails` therefore has no separate case for it.
- Floating-point costs are not modelled. Costs and split amounts are `real`, so `cost / n` is exact. The monthly totals, balances and paid/unpaid splits the expense controller refers to do not exist in the expense service.
- `ExpenseService.CreateExpense`: a null profile id inside the split list is treated as absent, since the model's list holds ids only.
- Transactions and concurrent requests are not modelled. Each method call is one atomic step, so the race between counting chores and inserting one is out of scope.
- `ChoreService.CompleteChore` does not model the `deleted <= 0` "Chore not found" branch. A link was found in the same step, so the branch cannot be taken; `Store.UnlinkCountPositive` proves this.
- `ChoreService.CreatedAssigneeIsMember`: the fallback to `DEFAULT_PROFILE_ID` when the assignee is null cannot be reached, so it is not written.
- The stored chore keeps `repeatRule` as sent. The rule uses its trimmed form, and so does the model.
- Dates and `Instant`s of chores are integers in an unspecified unit. The end-before-start check compares them with `<`.
- DNS resolution, the TCP probe and the system properties of the debug endpoint are not modelled. `JdbcDebug.DebugDbConnectivity` stops at the choice between probing and reporting the missing host or port.
- HTTP controllers, status mapping, JWT authentication, the other services (schedule, grocery, profile) and the SwiftUI views are outside the core.
- Swift strings are modelled as sequences of Unicode scalars. Grapheme clusters and canonical-equivalence string comparison are not modelled.
- `SwiftText.IsSwiftNumber` does not cover every Unicode numeric character. It covers the ASCII digits, the Latin-1 superscripts and fractions, the Arabic-Indic, Devanagari and Bengali digits, the superscript and subscript digits, the number forms, the enclosed numbers and the fullwidth digits.
- The invite `status` column is a free-form string in the database. The model gives it the three values the services write (`pending`, `accepted`, `declined`), as `Tables.InviteStatus`; other stored texts are not modelled.
- Java `equalsIgnoreCase` and SQL `lower()` use ASCII case folding only.
- `UUID.fromString` accepts only ASCII hexadecimal digits; `Character.digit`'s other Unicode digits are left out.
- JavaText.ParseInt: accepts only the ASCII digits 0-9. `Integer.parseInt` reads digits through `Character.digit`, which also accepts other Unicode decimal digits such as the fullwidth and Arabic-Indic ones, so a port written with those is a `NumberFormat` error in the model and a number in Java.
- JdbcDebug.ParsePostgresHostPort: uses the corrected first-entry step (`JdbcDebug.FirstEntry`, see Findings). On an authority made only of commas, such as in `jdbc:postgresql://,/db`, the code as written throws `ArrayIndexOutOfBoundsException` at line 81, while the model reports no host or port. The parse as written is `JdbcDebug.HostPortOfAsWritten`, and `JdbcDebug.HostPortAsWrittenDiffers` proves it differs from the model on exactly those URLs.
- JdbcDebug.DebugDbConnectivity: inherits the corrected step from `JdbcDebug.ParsePostgresHostPort`, so on a comma-only authority it reports the missing host and port where the code as written lets the exception escape the endpoint.
- `HouseholdSessions.HouseholdSession.constructor` takes the stored selection as an id. Parsing the stored text back into a UUID is left out.
- The `isLoading` flag is not modelled while a request is in flight, and neither is the client's async scheduling. Each client method is modelled from call to completion.
- `HouseholdSessions.HouseholdSession.CreateHousehold`: the roommate emails are passed through to the remote call and are not otherwise modelled.

## Findings

| source | as written | input that shows it | evidently intended | confidence | as-written member | corrected member |
|---|---|---|---|---|---|---|
| Backend/src/main/java/com/HomeHero/demo/controller/DebugController/DbDebugController.java:81 | `authority.split(",")[0]` indexes the first element of the split, which is an empty array when the authority is only commas, so the call throws `ArrayIndexOutOfBoundsException` | `jdbc:postgresql://,/db` | an empty first entry yields no host or port, as line 82 does for other empty entries | not executed | JdbcDebug.FirstEntryAsWritten and JdbcDebug.HostPortOfAsWritten (shown by JdbcDebug.FirstEntryAsWrittenThrows, JdbcDebug.HostPortAsWrittenDiffers and JdbcDebug.CommaOnlyAuthority) | JdbcDebug.FirstEntry |
