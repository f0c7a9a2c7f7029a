/** The reply component: what a reply shows in each mode, who may edit it,
    and the actions its handlers dispatch, as sequences in dispatch order. */
module CommentReplyComponent {
  import opened Js
  import opened OrderedMaps
  import opened CommentTypes
  import opened CommentActions
  import opened CommentsReducer

  // ---------------------------------------------------------------------
  // Display

  /** The views of a reply. */
  datatype ReplyView =
    | EditingView | SavingView | SaveErrorView | DeleteConfirmView | DeletingView | DeleteErrorView | DefaultView

  /** `render`: a total case split on the mode; `default`, `deleted` and
      any other mode fall through to the default view. */
  function ViewFor(mode: ReplyMode): (v: ReplyView)
    ensures v == DefaultView <==> mode == Default || mode == Deleted
    ensures v == EditingView <==> mode == Editing
    ensures v == SavingView <==> mode == Saving
    ensures v == SaveErrorView <==> mode == SaveError
    ensures v == DeleteConfirmView <==> mode == DeleteConfirm
    ensures v == DeletingView <==> mode == Deleting
    ensures v == DeleteErrorView <==> mode == DeleteError
  {
    match mode
    case Editing => EditingView
    case Saving => SavingView
    case SaveError => SaveErrorView
    case DeleteConfirm => DeleteConfirmView
    case Deleting => DeletingView
    case DeleteError => DeleteErrorView
    case _ => DefaultView
  }

  datatype Button = EditButton | DeleteButton

  /** Edit and Delete are offered only to the reply's author, or to anyone
      when it has no author. */
  function DefaultButtons(reply: Reply, user: Author): (bs: seq<Button>)
    ensures bs != [] <==> MayEdit(reply.author, user)
    ensures bs != [] ==> EditButton in bs && DeleteButton in bs
  {
    if reply.author.None? || user.id == reply.author.value.id then [EditButton, DeleteButton] else []
  }

  // ---------------------------------------------------------------------
  // Handlers

  /** Updates of one reply of one comment, dispatched in order. */
  function ReplyUpdates(commentId: int, replyId: int, us: seq<ReplyUpdate>): (acts: seq<Action>)
    ensures |acts| == |us|
    ensures forall i :: 0 <= i < |us| ==> acts[i] == UpdateReply(commentId, replyId, us[i])
  {
    seq(|us|, i requires 0 <= i < |us| => UpdateReply(commentId, replyId, us[i]))
  }

  /** A reply after a sequence of partial updates. */
  function MergeAllReply(r: Reply, us: seq<ReplyUpdate>): (result: Reply)
    decreases |us|
  {
    if us == [] then r else MergeAllReply(MergeReply(r, us[0]), us[1..])
  }

  /** The state with reply `replyId` of comment `id` replaced by `r`. */
  function WithReply(s: CommentsState, id: int, replyId: int, r: Reply): (t: CommentsState)
    requires id in s.comments.entries
    ensures t.comments.keys == s.comments.keys
    ensures var c := s.comments.entries[id];
      t.comments.entries == s.comments.entries[id := c.(replies := Set(c.replies, replyId, r))]
    ensures t.focusedComment == s.focusedComment && t.pinnedComment == s.pinnedComment
    ensures t.remoteCommentCount == s.remoteCommentCount
  {
    var c := s.comments.entries[id];
    s.(comments := Set(s.comments, id, c.(replies := Set(c.replies, replyId, r))))
  }

  /** Replacing a reply twice leaves the second replacement. */
  lemma WithReplyTwice(s: CommentsState, id: int, replyId: int, r1: Reply, r2: Reply)
    requires id in s.comments.entries && replyId in s.comments.entries[id].replies.entries
    ensures id in WithReply(s, id, replyId, r1).comments.entries
    ensures WithReply(WithReply(s, id, replyId, r1), id, replyId, r2) == WithReply(s, id, replyId, r2)
  {
    var c := s.comments.entries[id];
    var c1 := c.(replies := Set(c.replies, replyId, r1));
    assert Set(c1.replies, replyId, r2) == Set(c.replies, replyId, r2);
  }

  /** Dispatching updates of one present reply changes that reply by the
      updates, in order, and nothing else. */
  lemma {:induction false} RunReplyUpdates(s: CommentsState, id: int, replyId: int, us: seq<ReplyUpdate>)
    requires FocusValid(s) && id in s.comments.entries && replyId in s.comments.entries[id].replies.entries
    ensures Run(s, ReplyUpdates(id, replyId, us))
         == WithReply(s, id, replyId, MergeAllReply(s.comments.entries[id].replies.entries[replyId], us))
    decreases |us|
  {
    var c := s.comments.entries[id];
    var r := c.replies.entries[replyId];
    if us == [] {
      assert c.replies.entries[replyId := r] == c.replies.entries;
      assert Set(c.replies, replyId, r) == c.replies;
      assert c.(replies := Set(c.replies, replyId, r)) == c;
      assert s.comments.entries[id := c] == s.comments.entries;
    } else {
      var s1 := Next(Present(s), UpdateReply(id, replyId, us[0]));
      assert s1 == WithReply(s, id, replyId, MergeReply(r, us[0]));
      assert ReplyUpdates(id, replyId, us)[0] == UpdateReply(id, replyId, us[0]);
      assert ReplyUpdates(id, replyId, us)[1..] == ReplyUpdates(id, replyId, us[1..]);
      assert ReplyUpdates(id, replyId, us) == [UpdateReply(id, replyId, us[0])] + ReplyUpdates(id, replyId, us[1..]);
      RunCons(s, UpdateReply(id, replyId, us[0]), ReplyUpdates(id, replyId, us[1..]));
      assert s1.comments.entries[id].replies.entries[replyId] == MergeReply(r, us[0]);
      RunReplyUpdates(s1, id, replyId, us[1..]);
      WithReplyTwice(s, id, replyId, MergeReply(r, us[0]), MergeAllReply(MergeReply(r, us[0]), us[1..]));
    }
  }

  lemma RunOneReplyUpdate(s: CommentsState, id: int, replyId: int, u: ReplyUpdate)
    requires FocusValid(s) && id in s.comments.entries && replyId in s.comments.entries[id].replies.entries
    ensures Run(s, ReplyUpdates(id, replyId, [u]))
         == WithReply(s, id, replyId, MergeReply(s.comments.entries[id].replies.entries[replyId], u))
  {
    RunReplyUpdates(s, id, replyId, [u]);
    assert [u][1..] == [];
  }

  function ModeUpdate(m: ReplyMode): (u: ReplyUpdate)
  {
    NoReplyChange.(mode := Present(m))
  }

  /** `saveCommentReply`: mode `saving`, then mode `default` with the draft
      as text and the author it was rendered with. */
  function SaveReplyActions(comment: Comment, reply: Reply): (acts: seq<Action>)
    ensures |acts| == 2
    ensures forall i :: 0 <= i < 2 ==> acts[i].UpdateReply? && acts[i].commentId == comment.localId
                                        && acts[i].replyId == reply.localId
  {
    ReplyUpdates(comment.localId, reply.localId,
      [ ModeUpdate(Saving),
        NoReplyChange.(mode := Present(Default), text := reply.newText, author := Present(reply.author)) ])
  }

  /** `deleteCommentReply`: mode `deleting`, then the deletion. */
  function DeleteReplyActions(comment: Comment, reply: Reply): (acts: seq<Action>)
    ensures acts == [UpdateReply(comment.localId, reply.localId, ModeUpdate(Deleting)),
                     DeleteReply(comment.localId, reply.localId)]
  {
    ReplyUpdates(comment.localId, reply.localId, [ModeUpdate(Deleting)])
    + [DeleteReply(comment.localId, reply.localId)]
  }

  /** Edit: mode `editing` with the current text as draft. */
  function EditActions(comment: Comment, reply: Reply): (acts: seq<Action>)
  {
    ReplyUpdates(comment.localId, reply.localId, [NoReplyChange.(mode := Present(Editing), newText := Present(reply.text))])
  }

  /** Cancel while editing: back to `default`, the draft reset to the text. */
  function CancelEditActions(comment: Comment, reply: Reply): (acts: seq<Action>)
  {
    ReplyUpdates(comment.localId, reply.localId, [NoReplyChange.(mode := Present(Default), newText := Present(reply.text))])
  }

  /** Typing while editing stores the draft. */
  function ChangeTextActions(comment: Comment, reply: Reply, value: string): (acts: seq<Action>)
  {
    ReplyUpdates(comment.localId, reply.localId, [NoReplyChange.(newText := Present(value))])
  }

  /** Delete in the default view asks for confirmation. */
  function DeleteConfirmActions(comment: Comment, reply: Reply): (acts: seq<Action>)
  {
    ReplyUpdates(comment.localId, reply.localId, [ModeUpdate(DeleteConfirm)])
  }

  /** Cancel in the confirmation or the delete-error view: back to `default`. */
  function CancelDeleteActions(comment: Comment, reply: Reply): (acts: seq<Action>)
  {
    ReplyUpdates(comment.localId, reply.localId, [ModeUpdate(Default)])
  }

  // ---------------------------------------------------------------------
  // What the handlers do to the store

  /** A reply stored under its local id, in a comment stored under its. */
  predicate Stored(s: CommentsState, id: int, replyId: int) {
    && id in s.comments.entries && s.comments.entries[id].localId == id
    && replyId in s.comments.entries[id].replies.entries
    && s.comments.entries[id].replies.entries[replyId].localId == replyId
  }

  /** Saving a reply as rendered leaves it in mode `default` with its draft
      as text (the old text when there is no draft) and the rendered
      author; nothing else changes. */
  lemma SaveReplyEffect(s: CommentsState, id: int, replyId: int, reply: Reply)
    requires FocusValid(s) && Stored(s, id, replyId) && reply.localId == replyId
    ensures var r := s.comments.entries[id].replies.entries[replyId];
      Run(s, SaveReplyActions(s.comments.entries[id], reply))
      == WithReply(s, id, replyId,
           r.(mode := Default, text := if reply.newText.Present? then reply.newText.value else r.text,
              author := reply.author))
  {
    var r := s.comments.entries[id].replies.entries[replyId];
    var u0 := ModeUpdate(Saving);
    var u1 := NoReplyChange.(mode := Present(Default), text := reply.newText, author := Present(reply.author));
    var us := [u0, u1];
    RunReplyUpdates(s, id, replyId, us);
    assert us[0] == u0 && us[1..][0] == u1 && us[1..][1..] == [];
    assert MergeAllReply(r, us) == MergeAllReply(MergeReply(r, u0), us[1..]);
    assert MergeAllReply(MergeReply(r, u0), us[1..]) == MergeAllReply(MergeReply(MergeReply(r, u0), u1), []);
  }

  /** Editing a reply puts it in mode `editing` with its text as draft. */
  lemma EditEffect(s: CommentsState, id: int, replyId: int)
    requires FocusValid(s) && Stored(s, id, replyId)
    ensures var r := s.comments.entries[id].replies.entries[replyId];
      Run(s, EditActions(s.comments.entries[id], r)) == WithReply(s, id, replyId, r.(mode := Editing, newText := Present(r.text)))
  {
    var r := s.comments.entries[id].replies.entries[replyId];
    RunOneReplyUpdate(s, id, replyId, NoReplyChange.(mode := Present(Editing), newText := Present(r.text)));
  }

  /** Editing, typing `value` and saving stores `value` as the text and
      returns the reply to mode `default`. */
  lemma EditChangeSave(s: CommentsState, id: int, replyId: int, value: string)
    requires FocusValid(s) && Stored(s, id, replyId)
    ensures var r := s.comments.entries[id].replies.entries[replyId];
      var r1 := r.(mode := Editing, newText := Present(r.text));
      var r2 := r1.(newText := Present(value));
      var s1 := Run(s, EditActions(s.comments.entries[id], r));
      var s2 := Run(s1, ChangeTextActions(s.comments.entries[id], r1, value));
      Run(s2, SaveReplyActions(s.comments.entries[id], r2))
        == WithReply(s, id, replyId, r.(mode := Default, text := value, newText := Present(value)))
  {
    var c := s.comments.entries[id];
    var r := c.replies.entries[replyId];
    var r1 := r.(mode := Editing, newText := Present(r.text));
    var r2 := r1.(newText := Present(value));
    EditEffect(s, id, replyId);
    var s1 := WithReply(s, id, replyId, r1);
    assert Run(s, EditActions(c, r)) == s1;
    assert Stored(s1, id, replyId) && s1.comments.entries[id].replies.entries[replyId] == r1;
    RunOneReplyUpdate(s1, id, replyId, NoReplyChange.(newText := Present(value)));
    WithReplyTwice(s, id, replyId, r1, r2);
    var s2 := WithReply(s, id, replyId, r2);
    assert Run(s1, ChangeTextActions(c, r1, value)) == s2;
    assert Stored(s2, id, replyId) && s2.comments.entries[id].replies.entries[replyId] == r2;
    assert s2.comments.entries[id].localId == c.localId;
    SaveReplyEffect(s2, id, replyId, r2);
    WithReplyTwice(s, id, replyId, r2, r.(mode := Default, text := value, newText := Present(value)));
  }

  /** Editing and then cancelling returns the reply to mode `default` with
      its text untouched and the draft reset to it. */
  lemma EditThenCancel(s: CommentsState, id: int, replyId: int)
    requires FocusValid(s) && Stored(s, id, replyId)
    ensures var r := s.comments.entries[id].replies.entries[replyId];
      var r1 := r.(mode := Editing, newText := Present(r.text));
      var s1 := Run(s, EditActions(s.comments.entries[id], r));
      Run(s1, CancelEditActions(s.comments.entries[id], r1))
        == WithReply(s, id, replyId, r.(mode := Default, newText := Present(r.text)))
  {
    var c := s.comments.entries[id];
    var r := c.replies.entries[replyId];
    var r1 := r.(mode := Editing, newText := Present(r.text));
    EditEffect(s, id, replyId);
    var s1 := WithReply(s, id, replyId, r1);
    assert s1.comments.entries[id].replies.entries[replyId] == r1;
    RunOneReplyUpdate(s1, id, replyId, NoReplyChange.(mode := Present(Default), newText := Present(r1.text)));
    WithReplyTwice(s, id, replyId, r1, r.(mode := Default, newText := Present(r.text)));
  }

  /** Delete asks for confirmation; cancelling returns to `default`. */
  lemma DeleteConfirmThenCancel(s: CommentsState, id: int, replyId: int)
    requires FocusValid(s) && Stored(s, id, replyId)
    ensures var r := s.comments.entries[id].replies.entries[replyId];
      var s1 := Run(s, DeleteConfirmActions(s.comments.entries[id], r));
      && s1 == WithReply(s, id, replyId, r.(mode := DeleteConfirm))
      && Run(s1, CancelDeleteActions(s.comments.entries[id], r.(mode := DeleteConfirm)))
         == WithReply(s, id, replyId, r.(mode := Default))
  {
    var c := s.comments.entries[id];
    var r := c.replies.entries[replyId];
    RunOneReplyUpdate(s, id, replyId, ModeUpdate(DeleteConfirm));
    var s1 := WithReply(s, id, replyId, r.(mode := DeleteConfirm));
    assert s1.comments.entries[id].replies.entries[replyId] == r.(mode := DeleteConfirm);
    RunOneReplyUpdate(s1, id, replyId, ModeUpdate(Default));
    WithReplyTwice(s, id, replyId, r.(mode := DeleteConfirm), r.(mode := Default));
  }

  /** Deleting a reply: one without a truthy remote id leaves the comment's
      replies and their order; one with a remote id stays in its place, in
      mode `deleting` and flagged deleted. The other replies, the comment's other fields, the other
      comments, focus, pin and count are untouched. */
  lemma DeleteReplyHandlerEffect(s: CommentsState, id: int, replyId: int)
    requires FocusValid(s) && Stored(s, id, replyId)
    ensures var c := s.comments.entries[id];
      var r := c.replies.entries[replyId];
      var t := Run(s, DeleteReplyActions(c, r));
      && t.comments.keys == s.comments.keys
      && id in t.comments.entries
      && t.comments.entries == s.comments.entries[id := t.comments.entries[id]]
      && (!Truthy(r.remoteId) ==>
            && t.comments.entries[id].replies.entries == c.replies.entries - {replyId}
            && t.comments.entries[id].replies.keys == RemoveKey(c.replies.keys, replyId))
      && (Truthy(r.remoteId) ==>
            && t.comments.entries[id].replies.entries == c.replies.entries[replyId := r.(mode := Deleting, deleted := true)]
            && t.comments.entries[id].replies.keys == c.replies.keys)
      && t.comments.entries[id] == c.(replies := t.comments.entries[id].replies)
      && t.focusedComment == s.focusedComment && t.pinnedComment == s.pinnedComment
      && t.remoteCommentCount == s.remoteCommentCount
  {
    var c := s.comments.entries[id];
    var r := c.replies.entries[replyId];
    var a0 := UpdateReply(id, replyId, ModeUpdate(Deleting));
    var a1 := DeleteReply(id, replyId);
    assert DeleteReplyActions(c, r) == [a0] + [a1];
    RunCons(s, a0, [a1]);
    var s1 := Next(Present(s), a0);
    assert s1 == WithReply(s, id, replyId, r.(mode := Deleting));
    RunCons(s1, a1, []);
    DeleteReplyEffect(s1, id, replyId);
    var c1 := s1.comments.entries[id];
    assert c1.replies.entries == c.replies.entries[replyId := r.(mode := Deleting)];
    assert c1.replies.keys == c.replies.keys;
    assert c1.replies.entries - {replyId} == c.replies.entries - {replyId};
  }
}
