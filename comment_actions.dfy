/** The eight actions of the comments store. Each datatype constructor is
    the action creator of the same name: it returns the action of its own
    type holding its arguments unchanged. Only focusing and pinning accept
    `null` as the comment id. */
module CommentActions {
  import opened Js
  import opened CommentTypes

  const ADD_COMMENT := "add-comment"
  const UPDATE_COMMENT := "update-comment"
  const DELETE_COMMENT := "delete-comment"
  const SET_FOCUSED_COMMENT := "set-focused-comment"
  const SET_PINNED_COMMENT := "set-pinned-comment"
  const ADD_REPLY := "add-reply"
  const UPDATE_REPLY := "update-reply"
  const DELETE_REPLY := "delete-reply"

  datatype Action =
    | AddComment(comment: Comment)
    | UpdateComment(commentId: int, update: CommentUpdate)
    | DeleteComment(commentId: int)
    | SetFocusedComment(focusId: Option<int>)
    | SetPinnedComment(pinId: Option<int>)
    | AddReply(commentId: int, reply: Reply)
    | UpdateReply(commentId: int, replyId: int, replyUpdate: ReplyUpdate)
    | DeleteReply(commentId: int, replyId: int)

  /** The `type` tag of an action. */
  function Type(a: Action): string {
    match a
    case AddComment(_) => ADD_COMMENT
    case UpdateComment(_, _) => UPDATE_COMMENT
    case DeleteComment(_) => DELETE_COMMENT
    case SetFocusedComment(_) => SET_FOCUSED_COMMENT
    case SetPinnedComment(_) => SET_PINNED_COMMENT
    case AddReply(_, _) => ADD_REPLY
    case UpdateReply(_, _, _) => UPDATE_REPLY
    case DeleteReply(_, _) => DELETE_REPLY
  }

  /** The eight tags are pairwise distinct, so switching on `type` tells
      the variants apart: two actions have the same tag exactly when they
      are of the same variant. */
  lemma TypeIdentifiesVariant(a: Action, b: Action)
    ensures Type(a) == Type(b) <==>
      || (a.AddComment? && b.AddComment?)
      || (a.UpdateComment? && b.UpdateComment?)
      || (a.DeleteComment? && b.DeleteComment?)
      || (a.SetFocusedComment? && b.SetFocusedComment?)
      || (a.SetPinnedComment? && b.SetPinnedComment?)
      || (a.AddReply? && b.AddReply?)
      || (a.UpdateReply? && b.UpdateReply?)
      || (a.DeleteReply? && b.DeleteReply?)
  {
  }
}
