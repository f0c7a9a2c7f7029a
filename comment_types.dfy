/** The records of the comments store: authors, replies, comments, the
    partial records that update them, and the functions that build new ones. */
module CommentTypes {
  import opened Js
  import opened OrderedMaps
  import opened StateUtils

  /** `Author.id` is typed `any`: ids are only ever compared. */
  type AuthorId(==, !new)

  datatype Author = Author(id: AuthorId, name: string)

  /** A host-page annotation, an object the store only holds on to. */
  type Annotation(==, !new)

  /** The modes of a comment; a reply never takes the mode `Creating`. */
  datatype Mode =
    | Default
    | Creating
    | Editing
    | Saving
    | DeleteConfirm
    | Deleting
    | Deleted
    | SaveError
    | DeleteError

  type ReplyMode = m: Mode | !m.Creating? witness Default

  /** A reply. `newText` is written by the editing handlers although the
      record type does not declare it, so it may be absent. */
  datatype Reply = Reply(
    localId: int,
    remoteId: Option<int>,
    mode: ReplyMode,
    author: Option<Author>,
    date: int,
    text: string,
    editPreviousText: string,
    deleted: bool,
    newText: Slot<string>)

  /** A comment. The last four fields are read or written by the handlers
      and the renderer although the record type does not declare them, so
      each may be absent. */
  datatype Comment = Comment(
    contentpath: string,
    localId: int,
    annotation: Option<Annotation>,
    remoteId: Option<int>,
    mode: Mode,
    deleted: bool,
    author: Option<Author>,
    date: Option<int>,
    text: string,
    replies: OMap<Reply>,
    newReply: string,
    editPreviousText: string,
    isFocused: bool,
    remoteReplyCount: int,
    newText: Slot<string>,
    message: Slot<string>,
    resolvedAt: Slot<Option<int>>,
    resolvedThisSession: Slot<bool>)

  /** `Partial<CommentReply>`. */
  datatype ReplyUpdate = ReplyUpdate(
    localId: Slot<int>,
    remoteId: Slot<Option<int>>,
    mode: Slot<ReplyMode>,
    author: Slot<Option<Author>>,
    date: Slot<int>,
    text: Slot<string>,
    editPreviousText: Slot<string>,
    deleted: Slot<bool>,
    newText: Slot<string>)

  /** `Partial<Comment>`. */
  datatype CommentUpdate = CommentUpdate(
    contentpath: Slot<string>,
    localId: Slot<int>,
    annotation: Slot<Option<Annotation>>,
    remoteId: Slot<Option<int>>,
    mode: Slot<Mode>,
    deleted: Slot<bool>,
    author: Slot<Option<Author>>,
    date: Slot<Option<int>>,
    text: Slot<string>,
    replies: Slot<OMap<Reply>>,
    newReply: Slot<string>,
    editPreviousText: Slot<string>,
    isFocused: Slot<bool>,
    remoteReplyCount: Slot<int>,
    newText: Slot<string>,
    message: Slot<string>,
    resolvedAt: Slot<Option<int>>,
    resolvedThisSession: Slot<bool>)

  /** The empty partial records `{}`. */
  const NoReplyChange: ReplyUpdate :=
    ReplyUpdate(Missing, Missing, Missing, Missing, Missing, Missing, Missing, Missing, Missing)

  const NoCommentChange: CommentUpdate :=
    CommentUpdate(Missing, Missing, Missing, Missing, Missing, Missing, Missing, Missing, Missing,
                  Missing, Missing, Missing, Missing, Missing, Missing, Missing, Missing, Missing)

  /** `update(reply, u)`. */
  function MergeReply(r: Reply, u: ReplyUpdate): Reply {
    Reply(
      Merge(r.localId, u.localId),
      Merge(r.remoteId, u.remoteId),
      Merge(r.mode, u.mode),
      Merge(r.author, u.author),
      Merge(r.date, u.date),
      Merge(r.text, u.text),
      Merge(r.editPreviousText, u.editPreviousText),
      Merge(r.deleted, u.deleted),
      MergeSlot(r.newText, u.newText))
  }

  /** `update(comment, u)`. */
  function MergeComment(c: Comment, u: CommentUpdate): Comment {
    Comment(
      Merge(c.contentpath, u.contentpath),
      Merge(c.localId, u.localId),
      Merge(c.annotation, u.annotation),
      Merge(c.remoteId, u.remoteId),
      Merge(c.mode, u.mode),
      Merge(c.deleted, u.deleted),
      Merge(c.author, u.author),
      Merge(c.date, u.date),
      Merge(c.text, u.text),
      Merge(c.replies, u.replies),
      Merge(c.newReply, u.newReply),
      Merge(c.editPreviousText, u.editPreviousText),
      Merge(c.isFocused, u.isFocused),
      Merge(c.remoteReplyCount, u.remoteReplyCount),
      MergeSlot(c.newText, u.newText),
      MergeSlot(c.message, u.message),
      MergeSlot(c.resolvedAt, u.resolvedAt),
      MergeSlot(c.resolvedThisSession, u.resolvedThisSession))
  }

  /** The empty update changes nothing, and an update applied twice is
      applied once. */
  lemma UpdateLaws(c: Comment, u: CommentUpdate, r: Reply, v: ReplyUpdate)
    ensures MergeComment(c, NoCommentChange) == c
    ensures MergeComment(MergeComment(c, u), u) == MergeComment(c, u)
    ensures MergeReply(r, NoReplyChange) == r
    ensures MergeReply(MergeReply(r, v), v) == MergeReply(r, v)
  {
  }

  /** The number of ids that are not `null`. */
  function CountNonNull(ids: seq<Option<int>>): (n: nat)
    ensures n <= |ids|
    ensures n == |ids| <==> forall i :: 0 <= i < |ids| ==> ids[i].Some?
    ensures n == 0 <==> forall i :: 0 <= i < |ids| ==> ids[i].None?
  {
    if ids == [] then 0
    else
      var rest := CountNonNull(ids[1..]);
      assert forall i :: 1 <= i < |ids| ==> ids[i] == ids[1..][i - 1];
      (if ids[0].Some? then 1 else 0) + rest
  }

  /** The number of ids that are truthy. It differs from `CountNonNull`
      exactly when some id is `0`. */
  function CountTruthy(ids: seq<Option<int>>): (n: nat)
    ensures n <= CountNonNull(ids)
    ensures n == CountNonNull(ids) <==> forall i :: 0 <= i < |ids| ==> ids[i] != Some(0)
  {
    if ids == [] then 0
    else
      var rest := CountTruthy(ids[1..]);
      assert forall i :: 1 <= i < |ids| ==> ids[i] == ids[1..][i - 1];
      (if Truthy(ids[0]) then 1 else 0) + rest
  }

  /** The remote ids of replies, position by position. */
  function ReplyRemoteIds(rs: seq<Reply>): (ids: seq<Option<int>>)
    ensures |ids| == |rs|
    ensures forall i :: 0 <= i < |rs| ==> ids[i] == rs[i].remoteId
  {
    seq(|rs|, i requires 0 <= i < |rs| => rs[i].remoteId)
  }

  /** The same projection over comments, which the comment formset counts;
      comments and replies are different record types. */
  function CommentRemoteIds(cs: seq<Comment>): (ids: seq<Option<int>>)
    ensures |ids| == |cs|
    ensures forall i :: 0 <= i < |cs| ==> ids[i] == cs[i].remoteId
  {
    seq(|cs|, i requires 0 <= i < |cs| => cs[i].remoteId)
  }

  /** `newCommentReply(localId, author, date, {remoteId, mode, text})`. */
  function NewCommentReply(
    localId: int, author: Option<Author>, date: int,
    remoteId: Option<int> := None, mode: ReplyMode := Default, text: string := ""): (r: Reply)
    ensures r.localId == localId && r.remoteId == remoteId && r.mode == mode
    ensures r.author == author && r.date == date && r.text == text
    ensures !r.deleted && r.editPreviousText == "" && r.newText.Missing?
  {
    Reply(localId, remoteId, mode, author, date, text, "", false, Missing)
  }

  /** `newComment(contentpath, localId, annotation, author, date, {remoteId, mode, text, replies})`
      exactly as written: the options it reads do not include `resolvedAt`,
      so the comment it builds has no `resolvedAt` property at all. */
  function NewCommentAsWritten(
    contentpath: string, localId: int, annotation: Option<Annotation>, author: Option<Author>,
    date: int, remoteId: Option<int> := None, mode: Mode := Default, text: string := "",
    replies: OMap<Reply> := Empty()): (c: Comment)
    ensures c.remoteReplyCount == CountNonNull(ReplyRemoteIds(Values(replies)))
    ensures 0 <= c.remoteReplyCount <= |replies.keys|
    ensures !c.deleted && !c.isFocused && c.newReply == "" && c.editPreviousText == ""
    ensures c.resolvedAt.Missing?
  {
    Comment(contentpath, localId, annotation, remoteId, mode, false, author, Some(date), text,
            replies, "", "", false, CountNonNull(ReplyRemoteIds(Values(replies))),
            Missing, Missing, Missing, Missing)
  }

  /** `newComment` as its callers use it: it also takes the `resolvedAt`
      option (default `null`) that the initial load passes to it. */
  function NewComment(
    contentpath: string, localId: int, annotation: Option<Annotation>, author: Option<Author>,
    date: int, remoteId: Option<int> := None, mode: Mode := Default, text: string := "",
    replies: OMap<Reply> := Empty(), resolvedAt: Option<int> := None): (c: Comment)
    ensures c.contentpath == contentpath && c.localId == localId && c.annotation == annotation
    ensures c.author == author && c.date == Some(date) && c.remoteId == remoteId
    ensures c.mode == mode && c.text == text && c.replies == replies
    ensures c.remoteReplyCount == CountNonNull(ReplyRemoteIds(Values(replies)))
    ensures !c.deleted && !c.isFocused && c.newReply == "" && c.editPreviousText == ""
    ensures c.resolvedAt == Present(resolvedAt)
  {
    NewCommentAsWritten(contentpath, localId, annotation, author, date, remoteId, mode, text, replies)
      .(resolvedAt := Present(resolvedAt))
  }

  /** Edit and Delete are offered on a comment or reply only to its author,
      or to anyone when it has no author. */
  predicate MayEdit(author: Option<Author>, user: Author) {
    author.None? || user.id == author.value.id
  }
}
