/** The values the iOS client decodes from the backend (`HomeHeroAPI`); dates and balances are dropped. */
module ClientApi {
  import opened Wrappers
  import opened Uuids

  datatype ClientHousehold = ClientHousehold(id: Uuid, name: string, address: Option<string>, homeCode: Option<string>,
                                             score: int)

  datatype ClientProfile = ClientProfile(id: Uuid, userScore: Option<int>, firstName: Option<string>,
                                         lastName: Option<string>, email: Option<string>)

  datatype ClientInvite = ClientInvite(id: Uuid, householdId: Uuid, inviterProfileId: Uuid,
                                       inviteeProfileId: Option<Uuid>, inviteeEmail: Option<string>,
                                       status: Option<string>)

  /** What an awaited API call gives back: its value, or the `localizedDescription` of the error it threw. */
  datatype Fetch<+T> = Got(value: T) | Failed(message: string)
}
