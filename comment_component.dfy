/** The comment component: what a comment shows in each mode, who may edit
    it, which replies it lists, and the actions its handlers dispatch. A
    handler is the sequence of actions it dispatches, in order; the store
    performs them with `DispatchAll`. A handler receives the comment as it
    was last rendered. */
module CommentComponent {
  import opened Js
  import opened OrderedMaps
  import opened CommentTypes
  import opened CommentActions
  import opened CommentsReducer

  // ---------------------------------------------------------------------
  // Display

  /** The views of a comment. */
  datatype View =
    | CreatingView | EditingView | SavingView | SaveErrorView
    | DeleteConfirmView | DeletingView | DeleteErrorView | DefaultView

  /** `render`: the view of each mode. `default`, `deleted` and any other
      mode fall through to the default view. */
  function ViewFor(mode: Mode): (v: View)
    ensures v == DefaultView <==> mode == Default || mode == Deleted
    ensures v == CreatingView <==> mode == Creating
    ensures v == EditingView <==> mode == Editing
    ensures v == SavingView <==> mode == Saving
    ensures v == SaveErrorView <==> mode == SaveError
    ensures v == DeleteConfirmView <==> mode == DeleteConfirm
    ensures v == DeletingView <==> mode == Deleting
    ensures v == DeleteErrorView <==> mode == DeleteError
  {
    match mode
    case Creating => CreatingView
    case Editing => EditingView
    case Saving => SavingView
    case SaveError => SaveErrorView
    case DeleteConfirm => DeleteConfirmView
    case Deleting => DeletingView
    case DeleteError => DeleteErrorView
    case _ => DefaultView
  }

  /** Every view but the creating one shows the replies; every view but the
      default one hides the new-reply box. */
  predicate ShowsReplies(v: View) { v != CreatingView }
  predicate HidesNewReply(v: View) { v != DefaultView }

  /** The buttons of the default view. */
  datatype Button = EditButton | DeleteButton | ResolveButton

  /** Edit and Delete are offered only to the author, or to anyone when the
      comment has no author; Resolve is always offered. */
  function DefaultButtons(comment: Comment, user: Author): (bs: seq<Button>)
    ensures ResolveButton in bs
    ensures EditButton in bs <==> MayEdit(comment.author, user)
    ensures DeleteButton in bs <==> MayEdit(comment.author, user)
  {
    (if comment.author.None? || user.id == comment.author.value.id then [EditButton, DeleteButton] else [])
    + [ResolveButton]
  }

  /** Whether some reply is being edited or saved. */
  predicate ReplyBeingEdited(rs: seq<Reply>) {
    rs != [] && (ReplyBeingEdited(rs[..|rs| - 1]) || rs[|rs| - 1].mode == Saving || rs[|rs| - 1].mode == Editing)
  }

  /** A reply is being edited exactly when one of them is in mode `saving`
      or `editing`. */
  lemma {:induction false} ReplyBeingEditedMeansSome(rs: seq<Reply>)
    ensures ReplyBeingEdited(rs) <==> exists i :: 0 <= i < |rs| && (rs[i].mode == Saving || rs[i].mode == Editing)
  {
    if rs != [] {
      var init := rs[..|rs| - 1];
      ReplyBeingEditedMeansSome(init);
      if ReplyBeingEdited(init) {
        var i :| 0 <= i < |init| && (init[i].mode == Saving || init[i].mode == Editing);
        assert rs[i] == init[i];
      }
      if exists i :: 0 <= i < |rs| && (rs[i].mode == Saving || rs[i].mode == Editing) {
        var i :| 0 <= i < |rs| && (rs[i].mode == Saving || rs[i].mode == Editing);
        if i < |rs| - 1 {
          assert init[i] == rs[i];
        }
      }
    }
  }

  /** The replies of `rs` that are not flagged deleted, in order. */
  function ListedReplies(rs: seq<Reply>): (r: seq<Reply>)
    ensures |r| <= |rs|
    ensures forall x :: x in r <==> x in rs && !x.deleted
  {
    if rs == [] then []
    else ListedReplies(rs[..|rs| - 1]) + (if rs[|rs| - 1].deleted then [] else [rs[|rs| - 1]])
  }

  /** What the replies part of a comment shows. */
  datatype RepliesUi = RepliesUi(listed: seq<Reply>, replyBox: bool, replyButtons: bool)

  /** `renderReplies`: nothing while the comment has no truthy remote id;
      otherwise the undeleted replies in map order, a new-reply box unless
      `hideNewReply` is set or a reply is being edited or saved and only if
      the comment is focused or has a draft reply, and the Reply and Cancel
      buttons only with a non-empty draft. */
  method RenderReplies(comment: Comment, isFocused: bool, hideNewReply: bool) returns (ui: Option<RepliesUi>)
    ensures ui.None? <==> !Truthy(comment.remoteId)
    ensures ui.Some? ==> ui.value.listed == ListedReplies(Values(comment.replies))
    ensures ui.Some? ==>
      (ui.value.replyBox <==>
        !hideNewReply && !ReplyBeingEdited(Values(comment.replies)) && (isFocused || comment.newReply != ""))
    ensures ui.Some? ==> (ui.value.replyButtons <==> ui.value.replyBox && |comment.newReply| > 0)
  {
    if !Truthy(comment.remoteId) {
      return None;
    }
    var rs := Values(comment.replies);
    var listed: seq<Reply> := [];
    var replyBeingEdited := false;
    var i := 0;
    while i < |rs|
      invariant 0 <= i <= |rs|
      invariant listed == ListedReplies(rs[..i])
      invariant replyBeingEdited <==> ReplyBeingEdited(rs[..i])
    {
      ghost var next := rs[..i + 1];
      assert next[..|next| - 1] == rs[..i] && next[|next| - 1] == rs[i];
      assert ListedReplies(next) == listed + (if rs[i].deleted then [] else [rs[i]]);
      assert ReplyBeingEdited(next) <==> replyBeingEdited || rs[i].mode == Saving || rs[i].mode == Editing;
      if rs[i].mode == Saving || rs[i].mode == Editing {
        replyBeingEdited := true;
      }
      if !rs[i].deleted {
        listed := listed + [rs[i]];
      }
      i := i + 1;
    }
    assert rs[..i] == rs;
    var newReplyHidden := hideNewReply || replyBeingEdited;
    var box := !newReplyHidden && (isFocused || comment.newReply != "");
    ui := Some(RepliesUi(listed, box, box && |comment.newReply| > 0));
  }

  // ---------------------------------------------------------------------
  // Handlers

  /** Comment updates for the same comment, dispatched in order. */
  function Updates(id: int, us: seq<CommentUpdate>): (acts: seq<Action>)
    ensures |acts| == |us|
    ensures forall i :: 0 <= i < |us| ==> acts[i] == UpdateComment(id, us[i])
  {
    seq(|us|, i requires 0 <= i < |us| => UpdateComment(id, us[i]))
  }

  /** A comment after a sequence of partial updates. */
  function MergeAll(c: Comment, us: seq<CommentUpdate>): (r: Comment)
    decreases |us|
  {
    if us == [] then c else MergeAll(MergeComment(c, us[0]), us[1..])
  }

  /** Dispatching updates of one present comment changes that comment by
      the updates, in order, and nothing else. */
  lemma {:induction false} RunUpdates(s: CommentsState, id: int, us: seq<CommentUpdate>)
    requires FocusValid(s) && id in s.comments.entries
    ensures Run(s, Updates(id, us)) == s.(comments := Set(s.comments, id, MergeAll(s.comments.entries[id], us)))
    decreases |us|
  {
    if us == [] {
      assert s.comments.entries[id := s.comments.entries[id]] == s.comments.entries;
    } else {
      var s1 := Next(Present(s), UpdateComment(id, us[0]));
      assert Updates(id, us)[0] == UpdateComment(id, us[0]);
      assert Updates(id, us)[1..] == Updates(id, us[1..]);
      RunUpdates(s1, id, us[1..]);
    }
  }

  function ModeUpdate(m: Mode): (u: CommentUpdate)
  {
    NoCommentChange.(mode := Present(m))
  }

  /** `addRemoteWarningMessage`: when forced or when the comment has a
      remote id, the warning is shown and later cleared; otherwise nothing
      is dispatched. */
  function WarningUpdates(comment: Comment, warning: string, addIfLocal: bool): (us: seq<CommentUpdate>)
    ensures |us| == 0 <==> !addIfLocal && comment.remoteId.None?
  {
    if addIfLocal || comment.remoteId.Some? then
      [NoCommentChange.(message := Present(warning)), NoCommentChange.(message := Present(""))]
    else []
  }

  /** `saveComment`: mode `saving`, then mode `default` with the draft as
      text and the remote id, author and date it was rendered with, then
      the warning. */
  function SaveCommentActions(comment: Comment, warning: string, forceWarning: bool): (acts: seq<Action>)
    ensures forall i :: 0 <= i < |acts| ==> acts[i].UpdateComment? && acts[i].commentId == comment.localId
  {
    Updates(comment.localId,
      [ ModeUpdate(Saving),
        NoCommentChange.(mode := Present(Default), text := comment.newText, remoteId := Present(comment.remoteId),
                         author := Present(comment.author), date := Present(comment.date)) ]
      + WarningUpdates(comment, warning, forceWarning))
  }

  /** `doDeleteComment`: mode `deleting`, the warning when the comment has
      a remote id, and the deletion last. Resolving dispatches the same. */
  function DeleteCommentActions(comment: Comment, warning: string): (acts: seq<Action>)
    ensures |acts| >= 2 && acts[|acts| - 1] == DeleteComment(comment.localId)
    ensures acts[0] == UpdateComment(comment.localId, ModeUpdate(Deleting))
    ensures comment.remoteId.None? ==> |acts| == 2
  {
    Updates(comment.localId, [ModeUpdate(Deleting)] + WarningUpdates(comment, warning, false))
    + [DeleteComment(comment.localId)]
  }

  /** Edit: mode `editing` with the current text as draft. */
  function EditActions(comment: Comment): (acts: seq<Action>)
  {
    Updates(comment.localId, [NoCommentChange.(mode := Present(Editing), newText := Present(comment.text))])
  }

  /** Cancel while editing: back to `default`, the draft reset to the text. */
  function CancelEditActions(comment: Comment): (acts: seq<Action>)
  {
    Updates(comment.localId, [NoCommentChange.(mode := Present(Default), newText := Present(comment.text))])
  }

  /** Typing while creating or editing stores the draft. */
  function ChangeTextActions(comment: Comment, value: string): (acts: seq<Action>)
  {
    Updates(comment.localId, [NoCommentChange.(newText := Present(value))])
  }

  /** Cancel while creating removes the comment. */
  function CancelCreateActions(comment: Comment): (acts: seq<Action>)
  {
    [DeleteComment(comment.localId)]
  }

  /** Delete in the default view asks for confirmation. */
  function DeleteConfirmActions(comment: Comment): (acts: seq<Action>)
  {
    Updates(comment.localId, [ModeUpdate(DeleteConfirm)])
  }

  /** Cancel in the confirmation or the delete-error view: back to `default`. */
  function CancelDeleteActions(comment: Comment): (acts: seq<Action>)
  {
    Updates(comment.localId, [ModeUpdate(Default)])
  }

  /** Typing a reply stores the draft reply; cancelling it empties it. */
  function ChangeNewReplyActions(comment: Comment, value: string): (acts: seq<Action>)
  {
    Updates(comment.localId, [NoCommentChange.(newReply := Present(value))])
  }

  function CancelReplyActions(comment: Comment): (acts: seq<Action>)
  {
    ChangeNewReplyActions(comment, "")
  }

  /** `sendReply`: a reply with no remote id, mode `default` and the draft
      as text, under a fresh reply id; then the draft is emptied. */
  function SendReplyActions(comment: Comment, replyId: int, date: int): (acts: seq<Action>)
    ensures |acts| == 2
    ensures acts[0].AddReply? && acts[0].commentId == comment.localId
    ensures var r := acts[0].reply;
      r.localId == replyId && r.remoteId.None? && r.mode == Default && r.text == comment.newReply
      && r.author.None? && r.date == date && !r.deleted
    ensures acts[1] == UpdateComment(comment.localId, NoCommentChange.(newReply := Present("")))
  {
    [ AddReply(comment.localId, NewCommentReply(replyId, None, date, mode := Default, text := comment.newReply)),
      UpdateComment(comment.localId, NoCommentChange.(newReply := Present(""))) ]
  }

  /** `sendReply` as written: the reply warning helper it calls next is
      not exported by the reply component, so the call throws and only the
      ADD_REPLY before it is dispatched. */
  function SendReplyAsWrittenActions(comment: Comment, replyId: int, date: int): (acts: seq<Action>)
    ensures acts == SendReplyActions(comment, replyId, date)[..1]
  {
    [AddReply(comment.localId, NewCommentReply(replyId, None, date, mode := Default, text := comment.newReply))]
  }

  /** A click focuses the comment; a double click pins it. */
  function ClickActions(comment: Comment): (acts: seq<Action>)
  {
    [SetFocusedComment(Some(comment.localId))]
  }

  function DoubleClickActions(comment: Comment): (acts: seq<Action>)
  {
    [SetPinnedComment(Some(comment.localId))]
  }

  // ---------------------------------------------------------------------
  // What the handlers do to the store

  /** Saving a comment as rendered leaves it in mode `default` with its
      draft as text (the old text when there is no draft), the rendered
      remote id, author and date, and the warning cleared when one was
      shown; nothing else in the store changes. */
  lemma SaveCommentEffect(s: CommentsState, comment: Comment, warning: string, forceWarning: bool)
    requires FocusValid(s) && comment.localId in s.comments.entries
    ensures var r := Run(s, SaveCommentActions(comment, warning, forceWarning));
      var e := s.comments.entries[comment.localId];
      && r.comments.keys == s.comments.keys
      && r.comments.entries == s.comments.entries[comment.localId :=
           e.(mode := Default,
              text := if comment.newText.Present? then comment.newText.value else e.text,
              remoteId := comment.remoteId, author := comment.author, date := comment.date,
              message := if forceWarning || comment.remoteId.Some? then Present("") else e.message)]
      && r.focusedComment == s.focusedComment && r.pinnedComment == s.pinnedComment
      && r.remoteCommentCount == s.remoteCommentCount
  {
    var id := comment.localId;
    RunUpdates(s, id, SaveUpdates(comment, warning, forceWarning));
    SavedComment(s.comments.entries[id], comment, warning, forceWarning);
  }

  /** The updates `saveComment` dispatches. */
  function SaveUpdates(comment: Comment, warning: string, forceWarning: bool): (us: seq<CommentUpdate>)
    ensures SaveCommentActions(comment, warning, forceWarning) == Updates(comment.localId, us)
  {
    [ ModeUpdate(Saving),
      NoCommentChange.(mode := Present(Default), text := comment.newText, remoteId := Present(comment.remoteId),
                       author := Present(comment.author), date := Present(comment.date)) ]
    + WarningUpdates(comment, warning, forceWarning)
  }

  /** What the updates of `saveComment` make of the stored comment `e`. */
  lemma SavedComment(e: Comment, comment: Comment, warning: string, forceWarning: bool)
    ensures MergeAll(e, SaveUpdates(comment, warning, forceWarning))
      == e.(mode := Default,
            text := if comment.newText.Present? then comment.newText.value else e.text,
            remoteId := comment.remoteId, author := comment.author, date := comment.date,
            message := if forceWarning || comment.remoteId.Some? then Present("") else e.message)
  {
    var u0 := ModeUpdate(Saving);
    var u1 := NoCommentChange.(mode := Present(Default), text := comment.newText, remoteId := Present(comment.remoteId),
                               author := Present(comment.author), date := Present(comment.date));
    var w := WarningUpdates(comment, warning, forceWarning);
    var us := SaveUpdates(comment, warning, forceWarning);
    var e2 := MergeComment(MergeComment(e, u0), u1);
    assert us[0] == u0 && us[1..][0] == u1 && us[1..][1..] == w;
    assert MergeAll(e, us) == MergeAll(MergeComment(e, u0), us[1..]);
    assert MergeAll(MergeComment(e, u0), us[1..]) == MergeAll(e2, w);
    if forceWarning || comment.remoteId.Some? {
      var e3 := MergeComment(e2, NoCommentChange.(message := Present(warning)));
      var e4 := MergeComment(e3, NoCommentChange.(message := Present("")));
      assert w[0] == NoCommentChange.(message := Present(warning));
      assert w[1..][0] == NoCommentChange.(message := Present(""));
      assert w[1..][1..] == [];
      assert MergeAll(e2, w) == MergeAll(e3, w[1..]);
      assert MergeAll(e3, w[1..]) == MergeAll(e4, []);
    } else {
      assert w == [];
    }
  }

  /** Editing a comment puts it in mode `editing` with its text as draft. */
  lemma EditEffect(s: CommentsState, id: int)
    requires FocusValid(s) && id in s.comments.entries && s.comments.entries[id].localId == id
    ensures var e := s.comments.entries[id];
      var r := Run(s, EditActions(e));
      && r.comments.keys == s.comments.keys
      && r.comments.entries == s.comments.entries[id := e.(mode := Editing, newText := Present(e.text))]
    ensures var e := s.comments.entries[id];
      Run(s, EditActions(e)) == s.(comments := Set(s.comments, id, e.(mode := Editing, newText := Present(e.text))))
  {
    var e := s.comments.entries[id];
    RunOneUpdate(s, id, NoCommentChange.(mode := Present(Editing), newText := Present(e.text)));
  }

  /** Editing and then saving without typing keeps the text; editing,
      typing `value` and saving stores `value`. Either way the comment ends
      in mode `default`. */
  lemma EditThenSave(s: CommentsState, id: int, value: string, warning: string)
    requires FocusValid(s) && id in s.comments.entries && s.comments.entries[id].localId == id
    ensures var e := s.comments.entries[id];
      var s1 := Run(s, EditActions(e));
      && id in s1.comments.entries
      && var s2 := Run(s1, SaveCommentActions(s1.comments.entries[id], warning, false));
         && id in s2.comments.entries
         && s2.comments.entries[id].text == e.text && s2.comments.entries[id].mode == Default
    ensures var e := s.comments.entries[id];
      var s1 := Run(s, EditActions(e));
      && id in s1.comments.entries
      && var s2 := Run(s1, ChangeTextActions(s1.comments.entries[id], value));
         && id in s2.comments.entries
         && var s3 := Run(s2, SaveCommentActions(s2.comments.entries[id], warning, false));
            && id in s3.comments.entries
            && s3.comments.entries[id].text == value && s3.comments.entries[id].mode == Default
  {
    var e := s.comments.entries[id];
    EditEffect(s, id);
    var s1 := Run(s, EditActions(e));
    SaveCommentEffect(s1, s1.comments.entries[id], warning, false);
    var e1 := s1.comments.entries[id];
    RunUpdates(s1, id, [NoCommentChange.(newText := Present(value))]);
    var s2 := Run(s1, ChangeTextActions(e1, value));
    SaveCommentEffect(s2, s2.comments.entries[id], warning, false);
  }

  /** Editing and then cancelling returns the comment to mode `default`
      with its text untouched and the draft reset to it. */
  lemma EditThenCancel(s: CommentsState, id: int)
    requires FocusValid(s) && id in s.comments.entries && s.comments.entries[id].localId == id
    ensures var e := s.comments.entries[id];
      var s1 := Run(s, EditActions(e));
      && id in s1.comments.entries
      && var s2 := Run(s1, CancelEditActions(s1.comments.entries[id]));
         && s2.comments.entries == s.comments.entries[id := e.(mode := Default, newText := Present(e.text))]
         && s2.comments.keys == s.comments.keys
    ensures var e := s.comments.entries[id];
      var s1 := Run(s, EditActions(e));
      id in s1.comments.entries
      && Run(s1, CancelEditActions(s1.comments.entries[id]))
         == s.(comments := Set(s.comments, id, e.(mode := Default, newText := Present(e.text))))
  {
    var e := s.comments.entries[id];
    var edited := e.(mode := Editing, newText := Present(e.text));
    RunOneUpdate(s, id, NoCommentChange.(mode := Present(Editing), newText := Present(e.text)));
    var s1 := Run(s, EditActions(e));
    assert s1.comments.entries == s.comments.entries[id := edited];
    RunOneUpdate(s1, id, NoCommentChange.(mode := Present(Default), newText := Present(e.text)));
    UpdateTwice(s.comments.entries, id, edited, e.(mode := Default, newText := Present(e.text)));
  }

  /** Dispatching one update of a present comment merges it into that
      comment and changes nothing else. */
  lemma RunOneUpdate(s: CommentsState, id: int, u: CommentUpdate)
    requires FocusValid(s) && id in s.comments.entries
    ensures Run(s, Updates(id, [u])) == s.(comments := Set(s.comments, id, MergeComment(s.comments.entries[id], u)))
  {
    RunUpdates(s, id, [u]);
    assert [u][1..] == [];
  }

  /** Delete asks for confirmation; cancelling returns to `default`. */
  lemma DeleteConfirmThenCancel(s: CommentsState, id: int)
    requires FocusValid(s) && id in s.comments.entries && s.comments.entries[id].localId == id
    ensures var e := s.comments.entries[id];
      var s1 := Run(s, DeleteConfirmActions(e));
      && s1.comments.entries == s.comments.entries[id := e.(mode := DeleteConfirm)]
      && var s2 := Run(s1, CancelDeleteActions(s1.comments.entries[id]));
         s2.comments.entries == s.comments.entries[id := e.(mode := Default)]
    ensures var e := s.comments.entries[id];
      var s1 := Run(s, DeleteConfirmActions(e));
      && s1 == s.(comments := Set(s.comments, id, e.(mode := DeleteConfirm)))
      && id in s1.comments.entries
      && Run(s1, CancelDeleteActions(s1.comments.entries[id])) == s.(comments := Set(s.comments, id, e.(mode := Default)))
  {
    var e := s.comments.entries[id];
    var confirming := e.(mode := DeleteConfirm);
    RunOneUpdate(s, id, ModeUpdate(DeleteConfirm));
    var s1 := Run(s, DeleteConfirmActions(e));
    assert s1.comments.entries == s.comments.entries[id := confirming];
    RunOneUpdate(s1, id, ModeUpdate(Default));
    UpdateTwice(s.comments.entries, id, confirming, e.(mode := Default));
  }

  /** The updates `doDeleteComment` dispatches before the deletion: mode
      `deleting`, and the warning shown and cleared when the comment has a
      remote id. */
  lemma DeletingUpdatesEffect(s: CommentsState, id: int, warning: string)
    requires FocusValid(s) && id in s.comments.entries
    ensures var e := s.comments.entries[id];
      Run(s, Updates(id, [ModeUpdate(Deleting)] + WarningUpdates(e, warning, false)))
      == s.(comments := Set(s.comments, id,
              if e.remoteId.Some? then e.(mode := Deleting, message := Present("")) else e.(mode := Deleting)))
  {
    var e := s.comments.entries[id];
    var w := WarningUpdates(e, warning, false);
    var us := [ModeUpdate(Deleting)] + w;
    RunUpdates(s, id, us);
    var e1 := MergeComment(e, ModeUpdate(Deleting));
    assert us[0] == ModeUpdate(Deleting) && us[1..] == w;
    assert MergeAll(e, us) == MergeAll(e1, w);
    if e.remoteId.Some? {
      var e2 := MergeComment(e1, NoCommentChange.(message := Present(warning)));
      assert w[0] == NoCommentChange.(message := Present(warning));
      assert w[1..][0] == NoCommentChange.(message := Present(""));
      assert w[1..][1..] == [];
      assert MergeAll(e1, w) == MergeAll(e2, w[1..]);
      assert MergeAll(e2, w[1..]) == e.(mode := Deleting, message := Present(""));
    } else {
      assert w == [];
      assert MergeAll(e1, w) == e.(mode := Deleting);
    }
  }

  /** Deleting a comment as stored: one without a truthy remote id leaves
      the map; one with a remote id stays, flagged deleted, in mode
      `deleting`, with the warning shown and cleared. Focus on it is
      dropped; the pin and the remote comment count stay. */
  lemma DeleteCommentHandlerEffect(s: CommentsState, id: int, warning: string)
    requires FocusValid(s) && id in s.comments.entries && s.comments.entries[id].localId == id
    ensures var e := s.comments.entries[id];
      var r := Run(s, DeleteCommentActions(e, warning));
      && (!Truthy(e.remoteId) ==>
            && r.comments.keys == RemoveKey(s.comments.keys, id)
            && r.comments.entries == s.comments.entries - {id})
      && (Truthy(e.remoteId) ==>
            && r.comments.keys == s.comments.keys
            && r.comments.entries == s.comments.entries[id := e.(mode := Deleting, message := Present(""), deleted := true)])
      && r.focusedComment == (if s.focusedComment == Some(id) then None else s.focusedComment)
      && r.pinnedComment == s.pinnedComment
      && r.remoteCommentCount == s.remoteCommentCount
  {
    var e := s.comments.entries[id];
    var prefix := Updates(id, [ModeUpdate(Deleting)] + WarningUpdates(e, warning, false));
    DeletingUpdatesEffect(s, id, warning);
    var s1 := Run(s, prefix);
    var e1 := if e.remoteId.Some? then e.(mode := Deleting, message := Present("")) else e.(mode := Deleting);
    assert s1.comments.entries == s.comments.entries[id := e1];
    assert s1.comments.entries[id] == e1;
    RunAppend(s, prefix, [DeleteComment(id)]);
    RunCons(s1, DeleteComment(id), []);
    DeleteCommentEffect(s1, id);
    if Truthy(e.remoteId) {
      UpdateTwice(s.comments.entries, id, e1, e1.(deleted := true));
    } else {
      assert s1.comments.entries - {id} == s.comments.entries - {id};
    }
  }

  /** Sending a reply stores it under the fresh reply id with the draft as
      text and no remote id, leaves the reply count alone and empties the
      draft; nothing else in the store changes. */
  lemma SendReplyEffect(s: CommentsState, id: int, replyId: int, date: int)
    requires FocusValid(s) && id in s.comments.entries && s.comments.entries[id].localId == id
    ensures var e := s.comments.entries[id];
      var r := Run(s, SendReplyActions(e, replyId, date));
      && r.comments.keys == s.comments.keys
      && id in r.comments.entries
      && var c := r.comments.entries[id];
         && c.replies.entries == e.replies.entries[replyId := NewCommentReply(replyId, None, date, text := e.newReply)]
         && c.remoteReplyCount == e.remoteReplyCount
         && c.newReply == ""
    ensures var e := s.comments.entries[id];
      var reply := NewCommentReply(replyId, None, date, mode := Default, text := e.newReply);
      Run(s, SendReplyActions(e, replyId, date))
      == s.(comments := Set(s.comments, id, e.(replies := Set(e.replies, replyId, reply), newReply := "")))
  {
    var e := s.comments.entries[id];
    var acts := SendReplyActions(e, replyId, date);
    assert acts == [acts[0]] + [acts[1]];
    RunCons(s, acts[0], [acts[1]]);
    var s1 := Next(Present(s), acts[0]);
    AddReplyEffect(s, id, acts[0].reply);
    var c1 := e.(replies := Set(e.replies, replyId, acts[0].reply));
    assert s1.comments.entries[id] == c1;
    assert s1 == s.(comments := Set(s.comments, id, c1));
    RunCons(s1, acts[1], []);
    UpdateCommentEffect(s1, id, NoCommentChange.(newReply := Present("")));
    UpdateTwice(s.comments.entries, id, c1, c1.(newReply := ""));
  }

  /** Sending a reply as written stores the same reply as the intended
      sequence but leaves the draft reply as it was: a non-empty draft is
      not emptied. */
  lemma SendReplyAsWrittenKeepsDraft(s: CommentsState, id: int, replyId: int, date: int)
    requires FocusValid(s) && id in s.comments.entries && s.comments.entries[id].localId == id
    ensures var e := s.comments.entries[id];
      var r := Run(s, SendReplyAsWrittenActions(e, replyId, date));
      var intended := Run(s, SendReplyActions(e, replyId, date));
      && id in r.comments.entries && id in intended.comments.entries
      && r.comments.entries[id].replies.entries == intended.comments.entries[id].replies.entries
      && r.comments.entries[id].newReply == e.newReply
      && (e.newReply != "" ==> r.comments.entries[id].newReply != intended.comments.entries[id].newReply)
  {
    var e := s.comments.entries[id];
    var acts := SendReplyAsWrittenActions(e, replyId, date);
    RunCons(s, acts[0], []);
    AddReplyEffect(s, id, acts[0].reply);
    SendReplyEffect(s, id, replyId, date);
  }

  /** A click on a comment in the map clears the previous focus and, when
      its id is truthy, focuses the comment and flags it; nothing else
      changes. */
  lemma ClickFocuses(s: CommentsState, id: int)
    requires FocusValid(s) && id in s.comments.entries && s.comments.entries[id].localId == id
    ensures var r := Run(s, ClickActions(s.comments.entries[id]));
      var m := s.comments.entries;
      var cleared := if s.focusedComment.None? then m
                     else m[s.focusedComment.value := m[s.focusedComment.value].(isFocused := false)];
      && r.comments.keys == s.comments.keys
      && r.focusedComment == (if id != 0 then Some(id) else None)
      && r.comments.entries == (if id != 0 then cleared[id := cleared[id].(isFocused := true)] else cleared)
      && r.pinnedComment == s.pinnedComment && r.remoteCommentCount == s.remoteCommentCount
  {
    RunCons(s, SetFocusedComment(Some(id)), []);
    SetFocusedEffect(s, Some(id));
  }

  /** A double click pins the comment and changes nothing else. */
  lemma DoubleClickPins(s: CommentsState, id: int)
    requires FocusValid(s) && id in s.comments.entries && s.comments.entries[id].localId == id
    ensures Run(s, DoubleClickActions(s.comments.entries[id])) == s.(pinnedComment := Some(id))
  {
    RunCons(s, SetPinnedComment(Some(id)), []);
    SetPinnedEffect(s, Some(id));
  }

  /** Cancelling a comment being created, which has no remote id yet,
      removes it from the map and from focus; the pin stays. */
  lemma CancelCreateEffect(s: CommentsState, id: int)
    requires FocusValid(s) && id in s.comments.entries && s.comments.entries[id].localId == id
    requires s.comments.entries[id].remoteId.None?
    ensures var r := Run(s, CancelCreateActions(s.comments.entries[id]));
      && r.comments.entries == s.comments.entries - {id}
      && r.comments.keys == RemoveKey(s.comments.keys, id)
      && r.focusedComment == (if s.focusedComment == Some(id) then None else s.focusedComment)
      && r.pinnedComment == s.pinnedComment
      && r.remoteCommentCount == s.remoteCommentCount
  {
    RunCons(s, DeleteComment(id), []);
    DeleteCommentEffect(s, id);
  }

  /** Typing a reply stores the draft reply; cancelling the reply empties
      it. Nothing else changes. */
  lemma NewReplyDraftEffect(s: CommentsState, id: int, value: string)
    requires FocusValid(s) && id in s.comments.entries && s.comments.entries[id].localId == id
    ensures var e := s.comments.entries[id];
      && Run(s, ChangeNewReplyActions(e, value)) == WithNewReply(s, id, value)
      && Run(s, CancelReplyActions(e)) == WithNewReply(s, id, "")
  {
    RunOneUpdate(s, id, NoCommentChange.(newReply := Present(value)));
    RunOneUpdate(s, id, NoCommentChange.(newReply := Present("")));
  }

  /** The state with the draft reply of comment `id` set to `value`. */
  function WithNewReply(s: CommentsState, id: int, value: string): (t: CommentsState)
    requires id in s.comments.entries
    ensures t.comments.keys == s.comments.keys
    ensures t.comments.entries == s.comments.entries[id := s.comments.entries[id].(newReply := value)]
    ensures t.focusedComment == s.focusedComment && t.pinnedComment == s.pinnedComment
    ensures t.remoteCommentCount == s.remoteCommentCount
  {
    s.(comments := Set(s.comments, id, s.comments.entries[id].(newReply := value)))
  }
}
