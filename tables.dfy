/** The rows of the database tables the services read and write. Surrogate row ids that nothing reads are left out. */
module Tables {
  import opened Wrappers
  import opened Uuids

  /** `public.profiles`. */
  datatype Profile = Profile(id: Uuid, firstName: Option<string>, lastName: Option<string>, email: Option<string>, userScore: int)

  /** `public.household`: the schema keeps only an address and the join code. */
  datatype HouseholdRow = HouseholdRow(id: Uuid, address: string, homeCode: string)

  /** `public.profile_to_household`. */
  datatype Membership = Membership(householdId: Uuid, profileId: Uuid)

  /** `public.task`: times are instants in an unspecified unit. */
  datatype Task = Task(id: Uuid, title: Option<string>, dueAt: Option<int>, impact: int, assigneeId: Option<Uuid>)

  /** `public.task_to_household`: a chore is listed for a household while this link exists. */
  datatype TaskLink = TaskLink(householdId: Uuid, taskId: Uuid, profileId: Uuid)

  /** `public.expense`; amounts are exact. */
  datatype Expense = Expense(id: Uuid, householdId: Uuid, profileId: Option<Uuid>, item: Option<string>, cost: real, score: int)

  /** `public.expense_to_split`. */
  datatype ExpenseSplit = ExpenseSplit(expenseId: Uuid, profileId: Uuid, amount: real)

  /** The three values the services write to `household_invite.status`. */
  datatype InviteStatus = Pending | Accepted | Declined

  /** The text stored in the `status` column. */
  function StatusText(s: InviteStatus): string {
    match s
    case Pending => "pending"
    case Accepted => "accepted"
    case Declined => "declined"
  }

  /** `public.household_invite`. */
  datatype Invite = Invite(id: Uuid, householdId: Uuid, inviterProfileId: Uuid, inviteeProfileId: Option<Uuid>,
                           inviteeEmail: Option<string>, status: InviteStatus)
}
