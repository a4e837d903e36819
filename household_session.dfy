/** The client's `HouseholdSession`: the households of the signed-in user, the selected one (persisted in the
    user defaults under `selected_household_id`), the received invites and the last error. The API calls it
    awaits are parameters: each is the `Fetch` that call would give back. */
module HouseholdSessions {
  import opened Wrappers
  import opened Seqs
  import opened SwiftText
  import opened Uuids
  import opened ClientApi

  /** `hs.contains(where: { $0.id == id })`. */
  predicate Lists(hs: seq<ClientHousehold>, id: Uuid) {
    exists i :: 0 <= i < |hs| && hs[i].id == id
  }

  function FirstId(hs: seq<ClientHousehold>): Option<Uuid> {
    if hs == [] then None else Some(hs[0].id)
  }

  /** `selectedHousehold`: nothing without a selection, else the first listed household with that id. */
  function SelectionIn(hs: seq<ClientHousehold>, selected: Option<Uuid>): (r: Option<ClientHousehold>)
    ensures r.None? <==> selected.None? || !Lists(hs, selected.value)
    ensures r.Some? ==> exists i :: 0 <= i < |hs| && hs[i] == r.value && r.value.id == selected.value &&
                                     forall j :: 0 <= j < i ==> hs[j].id != selected.value
  {
    if selected.None? then None else FirstMatch(hs, (h: ClientHousehold) => h.id == selected.value)
  }

  /** The selection after a refresh loaded `hs`: kept when still listed, otherwise the first household. */
  function Reconcile(selected: Option<Uuid>, hs: seq<ClientHousehold>): (r: Option<Uuid>)
    ensures r.None? <==> hs == []
    ensures r.Some? ==> Lists(hs, r.value)
    ensures selected.Some? && Lists(hs, selected.value) ==> r == selected
    ensures !(selected.Some? && Lists(hs, selected.value)) ==> r == FirstId(hs)
  {
    if selected.Some? && Lists(hs, selected.value) then selected else FirstId(hs)
  }

  /** After reconciling, a household is selected exactly when the list is not empty. */
  lemma ReconciledSelectionResolves(selected: Option<Uuid>, hs: seq<ClientHousehold>)
    ensures SelectionIn(hs, Reconcile(selected, hs)).Some? <==> hs != []
  {
  }

  /** The observable fields of a session. */
  datatype SessionState = SessionState(me: Option<ClientProfile>, households: seq<ClientHousehold>,
                                       selectedHouseholdId: Option<Uuid>, invites: seq<ClientInvite>,
                                       isLoading: bool, errorMessage: Option<string>,
                                       storedSelection: Option<Uuid>)

  /** The state `refresh` leaves behind, given what its three calls give back; a failed call stops the
      refresh, keeps what earlier calls stored and records the error. */
  function Refreshed(st: SessionState, profile: Fetch<ClientProfile>, mine: Fetch<seq<ClientHousehold>>,
                     received: Fetch<seq<ClientInvite>>): (r: SessionState)
    ensures !r.isLoading
    ensures r.errorMessage.None? <==> profile.Got? && mine.Got? && received.Got?
    ensures profile.Failed? ==> r == st.(isLoading := false, errorMessage := Some(profile.message))
    ensures profile.Got? ==> r.me == Some(profile.value)
    ensures !(profile.Got? && mine.Got?) ==>
      r.households == st.households && r.selectedHouseholdId == st.selectedHouseholdId &&
      r.storedSelection == st.storedSelection && r.invites == st.invites
    ensures profile.Got? && mine.Got? ==>
      && r.households == mine.value
      && (SelectionIn(r.households, r.selectedHouseholdId).Some? <==> mine.value != [])
      && (st.selectedHouseholdId.Some? && Lists(mine.value, st.selectedHouseholdId.value) ==>
            r.selectedHouseholdId == st.selectedHouseholdId && r.storedSelection == st.storedSelection)
      && (!(st.selectedHouseholdId.Some? && Lists(mine.value, st.selectedHouseholdId.value)) ==>
            r.selectedHouseholdId == FirstId(mine.value) && r.storedSelection == r.selectedHouseholdId)
      && r.invites == (if received.Got? then received.value else st.invites)
  {
    var cleared := st.(isLoading := false, errorMessage := None);
    if profile.Failed? then cleared.(errorMessage := Some(profile.message))
    else
      var withMe := cleared.(me := Some(profile.value));
      if mine.Failed? then withMe.(errorMessage := Some(mine.message))
      else
        var kept := st.selectedHouseholdId.Some? && Lists(mine.value, st.selectedHouseholdId.value);
        var selection := Reconcile(st.selectedHouseholdId, mine.value);
        var listed := withMe.(households := mine.value, selectedHouseholdId := selection,
                              storedSelection := if kept then st.storedSelection else selection);
        if received.Failed? then listed.(errorMessage := Some(received.message))
        else listed.(invites := received.value)
  }

  const AddressRequired: string := "Address is required."
  const CodeLength: string := "Enter a 6-digit home code."

  /** What a `createHousehold`/`joinHousehold` call leaves: the new state, the household it returns and the
      text it sent to the backend (`None` when no request was made). */
  datatype SessionStep = SessionStep(state: SessionState, result: Option<ClientHousehold>, sent: Option<string>)

  /** A guarded call: refused with `guardMessage` when `input` fails the guard; otherwise the request
      is sent, and on success the session refreshes and selects the returned household. */
  function Guarded(st: SessionState, accepted: bool, guardMessage: string, input: string, reply: Fetch<ClientHousehold>,
                   profile: Fetch<ClientProfile>, mine: Fetch<seq<ClientHousehold>>,
                   received: Fetch<seq<ClientInvite>>): (r: SessionStep)
    ensures !accepted ==> r == SessionStep(st.(errorMessage := Some(guardMessage)), None, None)
    ensures accepted ==> r.sent == Some(input)
    ensures accepted && reply.Failed? ==> r == SessionStep(st.(errorMessage := Some(reply.message)), None, Some(input))
    ensures accepted && reply.Got? ==>
      && r.result == Some(reply.value)
      && r.state.selectedHouseholdId == Some(reply.value.id)
      && r.state.storedSelection == Some(reply.value.id)
      && r.state == Refreshed(st, profile, mine, received).(selectedHouseholdId := Some(reply.value.id),
                                                            storedSelection := Some(reply.value.id))
  {
    if !accepted then SessionStep(st.(errorMessage := Some(guardMessage)), None, None)
    else if reply.Failed? then SessionStep(st.(errorMessage := Some(reply.message)), None, Some(input))
    else
      var refreshed := Refreshed(st, profile, mine, received);
      SessionStep(refreshed.(selectedHouseholdId := Some(reply.value.id), storedSelection := Some(reply.value.id)),
                  Some(reply.value), Some(input))
  }

  /** `createHousehold(address:roommateEmails:)`: a blank trimmed address is refused before any request. */
  function CreateStep(st: SessionState, address: string, reply: Fetch<ClientHousehold>, profile: Fetch<ClientProfile>,
                      mine: Fetch<seq<ClientHousehold>>, received: Fetch<seq<ClientInvite>>): SessionStep
  {
    Guarded(st, SwiftTrim(address) != [], AddressRequired, SwiftTrim(address), reply, profile, mine, received)
  }

  /** `joinHousehold(homeCode:)`: a trimmed code that is not six characters long is refused before any request. */
  function JoinStep(st: SessionState, homeCode: string, reply: Fetch<ClientHousehold>, profile: Fetch<ClientProfile>,
                    mine: Fetch<seq<ClientHousehold>>, received: Fetch<seq<ClientInvite>>): SessionStep
  {
    Guarded(st, |SwiftTrim(homeCode)| == 6, CodeLength, SwiftTrim(homeCode), reply, profile, mine, received)
  }

  /** A blank address never reaches the backend; any other is sent trimmed. */
  lemma CreateGuard(st: SessionState, address: string, reply: Fetch<ClientHousehold>, profile: Fetch<ClientProfile>,
                    mine: Fetch<seq<ClientHousehold>>, received: Fetch<seq<ClientInvite>>)
    ensures var step := CreateStep(st, address, reply, profile, mine, received);
      && (step.sent.None? <==> forall i :: 0 <= i < |address| ==> IsSwiftWhitespace(address[i]))
      && (step.sent.None? ==> step.result.None? && step.state.errorMessage == Some(AddressRequired))
      && (step.sent.Some? ==> step.sent.value == SwiftTrim(address) && step.sent.value != [])
  {
  }

  /** A join succeeds only for a six-character code, and then leaves the joined household selected. */
  lemma JoinSelectsJoined(st: SessionState, homeCode: string, reply: Fetch<ClientHousehold>,
                          profile: Fetch<ClientProfile>, mine: Fetch<seq<ClientHousehold>>,
                          received: Fetch<seq<ClientInvite>>)
    ensures var step := JoinStep(st, homeCode, reply, profile, mine, received);
      && (step.result.Some? ==> |step.sent.value| == 6 && step.state.selectedHouseholdId == Some(step.result.value.id))
      && (|SwiftTrim(homeCode)| != 6 ==> step.sent.None? && step.state.errorMessage == Some(CodeLength))
  {
  }

  class HouseholdSession {
    var me: Option<ClientProfile>
    var households: seq<ClientHousehold>
    var selectedHouseholdId: Option<Uuid>
    var invites: seq<ClientInvite>
    var isLoading: bool
    var errorMessage: Option<string>
    /** The `selected_household_id` user-defaults entry, as the id it holds. */
    var storedSelection: Option<Uuid>

    /** `init`: the selection starts as the stored one. */
    constructor(stored: Option<Uuid>)
      ensures State() == SessionState(None, [], stored, [], false, None, stored)
    {
      me, households, selectedHouseholdId, invites := None, [], stored, [];
      isLoading, errorMessage, storedSelection := false, None, stored;
    }

    function State(): SessionState
      reads this
    {
      SessionState(me, households, selectedHouseholdId, invites, isLoading, errorMessage, storedSelection)
    }

    function SelectedHousehold(): Option<ClientHousehold>
      reads this
    {
      SelectionIn(households, selectedHouseholdId)
    }

    /** `persistSelection`: store the selected id, or remove the entry when there is none. */
    method PersistSelection()
      modifies this`storedSelection
      ensures storedSelection == selectedHouseholdId
    {
      storedSelection := selectedHouseholdId;
    }

    method SelectHousehold(householdId: Option<Uuid>)
      modifies this`selectedHouseholdId, this`storedSelection
      ensures selectedHouseholdId == householdId && storedSelection == householdId
    {
      selectedHouseholdId := householdId;
      PersistSelection();
    }

    method Refresh(profile: Fetch<ClientProfile>, mine: Fetch<seq<ClientHousehold>>, received: Fetch<seq<ClientInvite>>)
      modifies this
      ensures State() == Refreshed(old(State()), profile, mine, received)
    {
      isLoading := true;
      errorMessage := None;
      if profile.Failed? {
        errorMessage := Some(profile.message);
        isLoading := false;
        return;
      }
      me := Some(profile.value);
      if mine.Failed? {
        errorMessage := Some(mine.message);
        isLoading := false;
        return;
      }
      households := mine.value;
      if selectedHouseholdId.Some? && Lists(mine.value, selectedHouseholdId.value) {
        // the selection is still listed
      } else {
        selectedHouseholdId := FirstId(mine.value);
        PersistSelection();
      }
      if received.Failed? {
        errorMessage := Some(received.message);
      } else {
        invites := received.value;
      }
      isLoading := false;
    }

    method CreateHousehold(address: string, roommateEmails: seq<string>, reply: Fetch<ClientHousehold>,
                           profile: Fetch<ClientProfile>, mine: Fetch<seq<ClientHousehold>>,
                           received: Fetch<seq<ClientInvite>>)
      returns (r: Option<ClientHousehold>, sent: Option<string>)
      modifies this
      ensures SessionStep(State(), r, sent) == CreateStep(old(State()), address, reply, profile, mine, received)
    {
      var cleanAddress := SwiftTrim(address);
      if cleanAddress == [] {
        errorMessage := Some(AddressRequired);
        return None, None;
      }
      sent := Some(cleanAddress);
      if reply.Failed? {
        errorMessage := Some(reply.message);
        return None, sent;
      }
      Refresh(profile, mine, received);
      SelectHousehold(Some(reply.value.id));
      r := Some(reply.value);
    }

    method JoinHousehold(homeCode: string, reply: Fetch<ClientHousehold>, profile: Fetch<ClientProfile>,
                         mine: Fetch<seq<ClientHousehold>>, received: Fetch<seq<ClientInvite>>)
      returns (r: Option<ClientHousehold>, sent: Option<string>)
      modifies this
      ensures SessionStep(State(), r, sent) == JoinStep(old(State()), homeCode, reply, profile, mine, received)
    {
      var code := SwiftTrim(homeCode);
      if |code| != 6 {
        errorMessage := Some(CodeLength);
        return None, None;
      }
      sent := Some(code);
      if reply.Failed? {
        errorMessage := Some(reply.message);
        return None, sent;
      }
      Refresh(profile, mine, received);
      SelectHousehold(Some(reply.value.id));
      r := Some(reply.value);
    }
  }
}
