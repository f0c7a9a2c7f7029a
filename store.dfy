/** The application store: the comments slice and the settings slice,
    changed only by dispatching actions. */
module AppStore {
  import opened Js
  import opened CommentActions
  import opened CommentsReducer
  import Settings

  class Store {
    var comments: CommentsState
    var settings: Settings.SettingsState
    /** The comment actions dispatched so far. */
    ghost var log: seq<Action>

    /** The comments slice is what the reducer makes of the dispatched
        actions from the empty state, and the settings are complete. */
    ghost predicate Valid()
      reads this
    {
      && comments == Run(CommentsReducer.InitialState(), log)
      && Settings.Complete(settings)
    }

    /** `createStore(reducer, {settings: preloaded})`: the comments slice
        starts empty, the settings are the preloaded ones. */
    constructor(preloaded: Settings.SettingsState)
      requires Settings.Complete(preloaded)
      ensures Valid() && log == []
      ensures comments == CommentsReducer.InitialState() && settings == preloaded
    {
      comments := CommentsReducer.InitialState();
      settings := preloaded;
      log := [];
    }

    /** `store.dispatch(a)` for a comments action: the comments slice takes
        one reducer step and the settings slice, to which the action is
        foreign, stays as it is. */
    method Dispatch(a: Action)
      requires Valid()
      modifies this
      ensures Valid()
      ensures log == old(log) + [a]
      ensures comments == Next(Present(old(comments)), a)
      ensures settings == old(settings)
    {
      comments := Reduce(Present(comments), a);
      settings := Settings.Reducer(Present(settings), Settings.OtherAction);
      RunSnoc(CommentsReducer.InitialState(), log, a);
      log := log + [a];
    }

    /** Dispatches `actions` one after the other. */
    method DispatchAll(actions: seq<Action>)
      requires Valid()
      modifies this
      ensures Valid()
      ensures log == old(log) + actions
      ensures comments == Run(old(comments), actions)
      ensures settings == old(settings)
    {
      var i := 0;
      while i < |actions|
        invariant 0 <= i <= |actions|
        invariant Valid()
        invariant log == old(log) + actions[..i]
        invariant comments == Run(old(comments), actions[..i])
        invariant settings == old(settings)
      {
        Dispatch(actions[i]);
        TakeOneMore(actions, i);
        RunSnoc(old(comments), actions[..i], actions[i]);
        AppendAssoc(old(log), actions[..i], [actions[i]]);
        i := i + 1;
      }
      assert actions[..i] == actions;
    }

    /** `store.dispatch(updateGlobalSettings(u))`: the settings slice merges
        the update and the comments slice, to which the action is foreign,
        stays as it is. */
    method UpdateGlobalSettings(u: Settings.SettingsState)
      requires Valid()
      modifies this
      ensures Valid()
      ensures settings == Settings.MergeSettings(Present(old(settings)), u)
      ensures comments == old(comments) && log == old(log)
    {
      settings := Settings.Reducer(Present(settings), Settings.UpdateGlobalSettings(u));
    }
  }
}
