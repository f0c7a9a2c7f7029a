/** The global settings: who the user is, whether comments are on, and
    whether resolved comments are shown. */
module Settings {
  import opened Js
  import opened CommentTypes
  import opened StateUtils

  /** `SettingsState`, and also `Partial<SettingsState>`: a field is
      `Missing` where the record lacks it. A state the reducer returns may
      lack fields (see `UndefinedUpdateKeepsOnlyTheUpdate`). */
  datatype SettingsState = SettingsState(
    user: Slot<Option<Author>>,
    commentsEnabled: Slot<bool>,
    showResolvedComments: Slot<bool>)

  /** All three fields are present. */
  predicate Complete(s: SettingsState) {
    s.user.Present? && s.commentsEnabled.Present? && s.showResolvedComments.Present?
  }

  /** The settings actions: a global update, or any action of another slice
      of the store. */
  datatype SettingsAction =
    | UpdateGlobalSettings(update: SettingsState)
    | OtherAction

  function InitialState(): (s: SettingsState)
    ensures Complete(s)
    ensures s.user.value.None? && s.commentsEnabled.value && !s.showResolvedComments.value
  {
    SettingsState(Present(None), Present(true), Present(false))
  }

  /** `update(state, u)` where `state` itself may be undefined: merging into
      an undefined record copies only the fields of `u`. */
  function MergeSettings(state: Slot<SettingsState>, u: SettingsState): (r: SettingsState)
    ensures state.Missing? ==> r == u
    ensures state.Present? ==>
      && (u.user.Present? ==> r.user == u.user) && (u.user.Missing? ==> r.user == state.value.user)
      && (u.commentsEnabled.Present? ==> r.commentsEnabled == u.commentsEnabled)
      && (u.commentsEnabled.Missing? ==> r.commentsEnabled == state.value.commentsEnabled)
      && (u.showResolvedComments.Present? ==> r.showResolvedComments == u.showResolvedComments)
      && (u.showResolvedComments.Missing? ==> r.showResolvedComments == state.value.showResolvedComments)
  {
    if state.Missing? then u
    else SettingsState(
      MergeSlot(state.value.user, u.user),
      MergeSlot(state.value.commentsEnabled, u.commentsEnabled),
      MergeSlot(state.value.showResolvedComments, u.showResolvedComments))
  }

  /** The settings reducer. An undefined state becomes the initial state,
      except that a global update merges into the undefined state itself. */
  function Reducer(state: Slot<SettingsState>, action: SettingsAction): (r: SettingsState)
    ensures action.OtherAction? ==> r == (if state.Missing? then InitialState() else state.value)
    ensures action.UpdateGlobalSettings? ==> r == MergeSettings(state, action.update)
    ensures state.Present? && Complete(state.value) ==> Complete(r)
  {
    var newState := if state.Missing? then InitialState() else state.value;
    match action
    case UpdateGlobalSettings(u) => MergeSettings(state, u)
    case OtherAction => newState
  }

  /** Updating an undefined state yields the update alone; a partial update
      then yields a state lacking fields, not the defaults. */
  lemma UndefinedUpdateKeepsOnlyTheUpdate(u: SettingsState)
    ensures Reducer(Missing, UpdateGlobalSettings(u)) == u
    ensures !Complete(u) ==> !Complete(Reducer(Missing, UpdateGlobalSettings(u)))
    ensures Reducer(Missing, UpdateGlobalSettings(SettingsState(Missing, Present(false), Missing))).user.Missing?
  {
  }

  /** A global update is idempotent, and an update with no fields changes a
      defined state not at all. */
  lemma UpdateLaws(s: SettingsState, u: SettingsState)
    ensures Reducer(Present(Reducer(Present(s), UpdateGlobalSettings(u))), UpdateGlobalSettings(u))
         == Reducer(Present(s), UpdateGlobalSettings(u))
    ensures Reducer(Present(s), UpdateGlobalSettings(SettingsState(Missing, Missing, Missing))) == s
  {
  }
}
