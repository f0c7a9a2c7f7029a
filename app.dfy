/** The application entry point: which comments the list renders, the
    initial load that turns the server's comments into store actions, and
    the creation of a new comment from an annotation. */
module App {
  import opened Js
  import opened OrderedMaps
  import opened CommentTypes
  import opened CommentActions
  import opened CommentsReducer
  import Settings
  import opened AppStore

  // ---------------------------------------------------------------------
  // Which comments are rendered

  /** A comment the list hides while resolved comments are not shown: its
      `resolvedAt` is not `null` (an absent property included) and it was
      not resolved in this session. */
  predicate Hidden(c: Comment) {
    c.resolvedAt != Present(None) && !TruthyFlag(c.resolvedThisSession)
  }

  /** The settings name a user (`user` is truthy). */
  predicate UserKnown(s: Settings.SettingsState) {
    s.user.Present? && s.user.value.Some?
  }

  /** `commentsEnabled` is truthy. */
  predicate Enabled(s: Settings.SettingsState) {
    s.commentsEnabled == Present(true)
  }

  /** `showResolvedComments` is truthy. */
  predicate ShowResolved(s: Settings.SettingsState) {
    s.showResolvedComments == Present(true)
  }

  /** The comments of `cs` that are not hidden, in order. */
  function Unhidden(cs: seq<Comment>): (r: seq<Comment>)
    ensures |r| <= |cs|
    ensures forall c :: c in r <==> c in cs && !Hidden(c)
  {
    if cs == [] then [] else (if Hidden(cs[0]) then [] else [cs[0]]) + Unhidden(cs[1..])
  }

  lemma {:induction false} UnhiddenAppend(a: seq<Comment>, b: seq<Comment>)
    ensures Unhidden(a + b) == Unhidden(a) + Unhidden(b)
  {
    if a == [] {
      AppendToEmpty(a, b);
    } else {
      ConsTail(a, b);
      UnhiddenAppend(a[1..], b);
      AppendAssoc(if Hidden(a[0]) then [] else [a[0]], Unhidden(a[1..]), Unhidden(b));
    }
  }

  /** `renderCommentsUi`: nothing while comments are disabled or there is no
      user; every comment when resolved comments are shown; otherwise
      exactly the comments that are not hidden. */
  function CommentsToRender(settings: Settings.SettingsState, comments: seq<Comment>): (r: seq<Comment>)
    ensures !Enabled(settings) || !UserKnown(settings) ==> r == []
    ensures Enabled(settings) && UserKnown(settings) && ShowResolved(settings) ==> r == comments
    ensures Enabled(settings) && UserKnown(settings) && !ShowResolved(settings) ==>
      |r| <= |comments| && forall c :: c in r <==> c in comments && !Hidden(c)
  {
    if !Enabled(settings) || !UserKnown(settings) then []
    else if !ShowResolved(settings) then Unhidden(comments)
    else comments
  }

  /** The rendered list keeps the order of the comment list: rendering a
      concatenation renders the parts one after the other. */
  lemma RenderKeepsOrder(settings: Settings.SettingsState, a: seq<Comment>, b: seq<Comment>)
    ensures CommentsToRender(settings, a + b) == CommentsToRender(settings, a) + CommentsToRender(settings, b)
  {
    UnhiddenAppend(a, b);
  }

  /** As written, `newComment` never sets `resolvedAt`, so the property is
      absent and every comment it builds is hidden from the list, the
      unresolved ones and the one the user has just created included,
      unless resolved comments are shown. */
  lemma AsWrittenHidesNewComments(
    settings: Settings.SettingsState, contentpath: string, localId: int, annotation: Option<Annotation>,
    author: Option<Author>, date: int, remoteId: Option<int>, mode: Mode, text: string)
    requires Enabled(settings) && UserKnown(settings) && !ShowResolved(settings)
    ensures var c := NewCommentAsWritten(contentpath, localId, annotation, author, date, remoteId, mode, text);
      Hidden(c) && CommentsToRender(settings, [c]) == []
  {
    var c := NewCommentAsWritten(contentpath, localId, annotation, author, date, remoteId, mode, text);
    assert c !in CommentsToRender(settings, [c]);
  }

  /** With `resolvedAt` stored, an unresolved comment is listed and a
      resolved one is hidden until it is resolved in this session. */
  lemma StoredResolvedAtDecidesVisibility(
    settings: Settings.SettingsState, contentpath: string, localId: int, annotation: Option<Annotation>,
    author: Option<Author>, date: int, remoteId: Option<int>, mode: Mode, text: string, resolvedAt: Option<int>)
    requires Enabled(settings) && UserKnown(settings) && !ShowResolved(settings)
    ensures var c := NewComment(contentpath, localId, annotation, author, date, remoteId, mode, text, Empty(), resolvedAt);
      && (resolvedAt.None? ==> CommentsToRender(settings, [c]) == [c])
      && (resolvedAt.Some? ==>
            && CommentsToRender(settings, [c]) == []
            && CommentsToRender(settings, [c.(resolvedThisSession := Present(true))])
               == [c.(resolvedThisSession := Present(true))])
  {
    var c := NewComment(contentpath, localId, annotation, author, date, remoteId, mode, text, Empty(), resolvedAt);
    var c' := c.(resolvedThisSession := Present(true));
    assert [c][1..] == [] && [c'][1..] == [];
  }

  // ---------------------------------------------------------------------
  // The initial load

  /** A reply as the server sends it; `createdAt` stands for the parsed
      `created_at` timestamp. */
  datatype InitialReply = InitialReply(id: int, author: Author, text: string, createdAt: int)

  /** A comment as the server sends it. `resolvedAt` is the `resolved_at`
      string or `null`; `resolvedAtTime` stands for its parsed timestamp. */
  datatype InitialComment = InitialComment(
    id: int,
    author: Author,
    text: string,
    createdAt: int,
    resolvedAt: Option<string>,
    resolvedAtTime: int,
    replies: seq<InitialReply>,
    contentPath: string)

  /** The fresh local ids the load gives one comment and its replies. */
  datatype LocalIds = LocalIds(commentId: int, replyIds: seq<int>)

  /** One set of local ids per initial comment, one reply id per reply. */
  predicate IdsFit(ics: seq<InitialComment>, ids: seq<LocalIds>) {
    |ids| == |ics| && forall i :: 0 <= i < |ics| ==> |ids[i].replyIds| == |ics[i].replies|
  }

  function CommentIds(ids: seq<LocalIds>): (r: seq<int>)
    ensures |r| == |ids| && forall i :: 0 <= i < |ids| ==> r[i] == ids[i].commentId
  {
    seq(|ids|, i requires 0 <= i < |ids| => ids[i].commentId)
  }

  /** The server ids of the initial comments, as the remote ids they get. */
  function ServerIds(ics: seq<InitialComment>): (r: seq<Option<int>>)
    ensures |r| == |ics| && forall i :: 0 <= i < |ics| ==> r[i] == Some(ics[i].id)
  {
    seq(|ics|, i requires 0 <= i < |ics| => Some(ics[i].id))
  }

  /** The settings the store is created with. */
  function StartSettings(author: Author): (s: Settings.SettingsState)
    ensures Settings.Complete(s) && UserKnown(s) && s.user.value.value == author
    ensures Enabled(s) && !ShowResolved(s)
  {
    Settings.SettingsState(Present(Some(author)), Present(true), Present(false))
  }

  /** The `resolvedAt` of a loaded comment: `null` exactly when `resolved_at`
      is `null` or the empty string, the parsed time otherwise. */
  function ResolvedAt(ic: InitialComment): (r: Option<int>)
    ensures r.None? <==> ic.resolvedAt.None? || ic.resolvedAt.value == ""
    ensures r.Some? ==> r.value == ic.resolvedAtTime
  {
    if ic.resolvedAt.Some? && ic.resolvedAt.value != "" then Some(ic.resolvedAtTime) else None
  }

  /** A server reply as a reply of the store, under local id `localId`. */
  function LoadedReply(r: InitialReply, localId: int): (reply: Reply)
    ensures reply.localId == localId && reply.remoteId == Some(r.id) && reply.text == r.text
    ensures reply.author == Some(r.author) && reply.date == r.createdAt
    ensures reply.mode == Default && !reply.deleted
  {
    NewCommentReply(localId, Some(r.author), r.createdAt, Some(r.id), Default, r.text)
  }

  function LoadedReplies(ic: InitialComment, ids: LocalIds): (rs: seq<Reply>)
    requires |ids.replyIds| == |ic.replies|
    ensures |rs| == |ic.replies|
    ensures forall j :: 0 <= j < |rs| ==> rs[j] == LoadedReply(ic.replies[j], ids.replyIds[j])
  {
    seq(|ic.replies|, j requires 0 <= j < |ic.replies| => LoadedReply(ic.replies[j], ids.replyIds[j]))
  }

  /** A server comment as the comment the load adds, before its replies. */
  function LoadedComment(ic: InitialComment, localId: int): (c: Comment)
    ensures c.localId == localId && c.remoteId == Some(ic.id) && c.text == ic.text
    ensures c.contentpath == ic.contentPath && c.author == Some(ic.author) && c.date == Some(ic.createdAt)
    ensures c.resolvedAt == Present(ResolvedAt(ic)) && c.resolvedThisSession.Missing?
    ensures c.mode == Default && c.replies == Empty() && c.remoteReplyCount == 0 && !c.isFocused
  {
    NewComment(ic.contentPath, localId, None, Some(ic.author), ic.createdAt, Some(ic.id), Default, ic.text,
               Empty(), ResolvedAt(ic))
  }

  /** The comment is the one the page asked to show. */
  predicate Requested(ic: InitialComment, requested: Option<int>) {
    Truthy(requested) && ic.id == requested.value
  }

  /** Add the replies to the comment, one after the other. */
  function AddReplies(commentId: int, rs: seq<Reply>): (acts: seq<Action>)
    decreases |rs|
  {
    if rs == [] then [] else [AddReply(commentId, rs[0])] + AddReplies(commentId, rs[1..])
  }

  lemma {:induction false} AddRepliesSnoc(commentId: int, rs: seq<Reply>, r: Reply)
    ensures AddReplies(commentId, rs + [r]) == AddReplies(commentId, rs) + [AddReply(commentId, r)]
    decreases |rs|
  {
    if rs == [] {
      assert rs + [r] == [r] && [r][1..] == [];
    } else {
      SnocTail(rs, r);
      AddRepliesSnoc(commentId, rs[1..], r);
      AppendAssoc([AddReply(commentId, rs[0])], AddReplies(commentId, rs[1..]), [AddReply(commentId, r)]);
    }
  }

  /** The update that marks a comment resolved in this session. */
  const ResolvedThisSession: CommentUpdate := NoCommentChange.(resolvedThisSession := Present(true))

  /** Focus and pin a comment. */
  function FocusAndPin(commentId: int): (acts: seq<Action>)
  {
    [SetFocusedComment(Some(commentId)), SetPinnedComment(Some(commentId))]
  }

  /** For the requested comment: focus and pin it, and when its
      `resolved_at` is not `null`, mark it resolved in this session. */
  function RequestedActions(ic: InitialComment, commentId: int, requested: Option<int>): (acts: seq<Action>)
    ensures !Requested(ic, requested) ==> acts == []
    ensures Requested(ic, requested) ==> |acts| >= 2
    ensures Requested(ic, requested) ==> acts[..2] == FocusAndPin(commentId)
    ensures Requested(ic, requested) ==>
      acts[2..] == (if ic.resolvedAt.Some? then [UpdateComment(commentId, ResolvedThisSession)] else [])
  {
    if !Requested(ic, requested) then []
    else FocusAndPin(commentId) + if ic.resolvedAt.Some? then [UpdateComment(commentId, ResolvedThisSession)] else []
  }

  /** What the load dispatches for one server comment. */
  function BlockActions(ic: InitialComment, ids: LocalIds, requested: Option<int>): (acts: seq<Action>)
    requires |ids.replyIds| == |ic.replies|
    ensures |acts| >= 1 && acts[0] == AddComment(LoadedComment(ic, ids.commentId))
  {
    [AddComment(LoadedComment(ic, ids.commentId))]
    + AddReplies(ids.commentId, LoadedReplies(ic, ids))
    + RequestedActions(ic, ids.commentId, requested)
  }

  /** What the load dispatches, server comment after server comment. */
  function LoadActions(ics: seq<InitialComment>, ids: seq<LocalIds>, requested: Option<int>): (acts: seq<Action>)
    requires IdsFit(ics, ids)
    decreases |ics|
  {
    if ics == [] then []
    else
      assert IdsFit(ics[1..], ids[1..]) by {
        forall i | 0 <= i < |ics| - 1 ensures |ids[1..][i].replyIds| == |ics[1..][i].replies| {
          assert ids[1..][i] == ids[i + 1] && ics[1..][i] == ics[i + 1];
        }
      }
      BlockActions(ics[0], ids[0], requested) + LoadActions(ics[1..], ids[1..], requested)
  }

  lemma {:induction false} LoadActionsSnoc(ics: seq<InitialComment>, ids: seq<LocalIds>, ic: InitialComment,
                                           id: LocalIds, requested: Option<int>)
    requires IdsFit(ics, ids) && |id.replyIds| == |ic.replies|
    ensures IdsFit(ics + [ic], ids + [id])
    ensures LoadActions(ics + [ic], ids + [id], requested)
         == LoadActions(ics, ids, requested) + BlockActions(ic, id, requested)
    decreases |ics|
  {
    IdsFitSnoc(ics, ids, ic, id);
    if ics == [] {
      assert ics + [ic] == [ic] && ids + [id] == [id];
      assert [ic][1..] == [] && [id][1..] == [];
    } else {
      SnocTail(ics, ic);
      SnocTail(ids, id);
      LoadActionsUnfold(ics + [ic], ids + [id], requested);
      LoadActionsUnfold(ics, ids, requested);
      LoadActionsSnoc(ics[1..], ids[1..], ic, id, requested);
      AppendAssoc(BlockActions(ics[0], ids[0], requested), LoadActions(ics[1..], ids[1..], requested),
                  BlockActions(ic, id, requested));
    }
  }

  lemma IdsFitSnoc(ics: seq<InitialComment>, ids: seq<LocalIds>, ic: InitialComment, id: LocalIds)
    requires IdsFit(ics, ids) && |id.replyIds| == |ic.replies|
    ensures IdsFit(ics + [ic], ids + [id])
  {
    assert forall i :: 0 <= i < |ics| ==> (ics + [ic])[i] == ics[i] && (ids + [id])[i] == ids[i];
  }

  /** The load of a non-empty list: the first server comment's block, then
      the load of the rest. */
  lemma LoadActionsUnfold(ics: seq<InitialComment>, ids: seq<LocalIds>, requested: Option<int>)
    requires IdsFit(ics, ids) && ics != []
    ensures IdsFit(ics[1..], ids[1..])
    ensures LoadActions(ics, ids, requested)
         == BlockActions(ics[0], ids[0], requested) + LoadActions(ics[1..], ids[1..], requested)
  {
    assert IdsFit(ics[1..], ids[1..]) by {
      forall i | 0 <= i < |ics| - 1 ensures |ids[1..][i].replyIds| == |ics[1..][i].replies| {
        assert ids[1..][i] == ids[i + 1] && ics[1..][i] == ics[i + 1];
      }
    }
  }

  /** The inner loop of the load: add the server replies of the comment
      `commentId`, one after the other, under their local ids. */
  method LoadReplies(store: Store, commentId: int, comment: InitialComment, localIds: LocalIds)
    requires store.Valid() && |localIds.replyIds| == |comment.replies|
    modifies store
    ensures store.Valid() && store.settings == old(store.settings)
    ensures store.log == old(store.log) + AddReplies(commentId, LoadedReplies(comment, localIds))
  {
    ghost var rs := LoadedReplies(comment, localIds);
    var j := 0;
    while j < |comment.replies|
      invariant 0 <= j <= |comment.replies|
      invariant store.Valid() && store.settings == old(store.settings)
      invariant store.log == old(store.log) + AddReplies(commentId, rs[..j])
    {
      var reply := LoadedReply(comment.replies[j], localIds.replyIds[j]);
      assert reply == rs[j];
      store.Dispatch(AddReply(commentId, reply));
      TakeOneMore(rs, j);
      AddRepliesSnoc(commentId, rs[..j], rs[j]);
      AppendAssoc(old(store.log), AddReplies(commentId, rs[..j]), [AddReply(commentId, reply)]);
      j := j + 1;
    }
    assert rs[..j] == rs;
  }

  /** The end of the load loop for one server comment: when it is the
      comment the page asked to show, focus and pin it, and mark it resolved
      in this session when its `resolved_at` is not `null`. */
  method ShowRequested(store: Store, comment: InitialComment, commentId: int, requested: Option<int>)
    requires store.Valid()
    modifies store
    ensures store.Valid() && store.settings == old(store.settings)
    ensures store.log == old(store.log) + RequestedActions(comment, commentId, requested)
  {
    if Truthy(requested) && comment.id == requested.value {
      store.Dispatch(SetFocusedComment(Some(commentId)));
      store.Dispatch(SetPinnedComment(Some(commentId)));
      if comment.resolvedAt.Some? {
        store.Dispatch(UpdateComment(commentId, ResolvedThisSession));
      }
    }
  }

  /** The body of the load loop for one server comment: add it, add its
      replies one after the other, and handle the requested comment. */
  method LoadComment(store: Store, comment: InitialComment, localIds: LocalIds, requested: Option<int>)
    requires store.Valid() && |localIds.replyIds| == |comment.replies|
    modifies store
    ensures store.Valid() && store.settings == old(store.settings)
    ensures store.log == old(store.log) + BlockActions(comment, localIds, requested)
  {
    var commentId := localIds.commentId;
    ghost var start := store.log;
    store.Dispatch(AddComment(LoadedComment(comment, commentId)));
    LoadReplies(store, commentId, comment, localIds);
    ShowRequested(store, comment, commentId, requested);
    AppendThree(start, [AddComment(LoadedComment(comment, commentId))],
                AddReplies(commentId, LoadedReplies(comment, localIds)), RequestedActions(comment, commentId, requested));
  }

  /** `initCommentsApp`: create the store with the author as user, comments
      enabled and resolved comments hidden; then load the server comments
      in order. The store ends with exactly the load's actions. */
  method InitCommentsApp(author: Author, initial: seq<InitialComment>, ids: seq<LocalIds>,
                         requested: Option<int>) returns (store: Store)
    requires IdsFit(initial, ids)
    ensures fresh(store) && store.Valid()
    ensures store.settings == StartSettings(author)
    ensures store.log == LoadActions(initial, ids, requested)
    ensures store.comments == Run(CommentsReducer.InitialState(), LoadActions(initial, ids, requested))
  {
    store := new Store(StartSettings(author));
    var i := 0;
    while i < |initial|
      invariant 0 <= i <= |initial|
      invariant store.Valid() && store.settings == StartSettings(author)
      invariant IdsFit(initial[..i], ids[..i])
      invariant store.log == LoadActions(initial[..i], ids[..i], requested)
    {
      LoadComment(store, initial[i], ids[i], requested);
      LoadActionsStep(initial, ids, i, requested);
      i := i + 1;
    }
    assert initial[..i] == initial && ids[..i] == ids;
  }

  /** One more server comment of the load loop. */
  lemma LoadActionsStep(ics: seq<InitialComment>, ids: seq<LocalIds>, i: nat, requested: Option<int>)
    requires IdsFit(ics, ids) && i < |ics|
    ensures IdsFit(ics[..i], ids[..i]) && IdsFit(ics[..i + 1], ids[..i + 1])
    ensures LoadActions(ics[..i + 1], ids[..i + 1], requested)
         == LoadActions(ics[..i], ids[..i], requested) + BlockActions(ics[i], ids[i], requested)
  {
    assert ics[..i + 1] == ics[..i] + [ics[i]] && ids[..i + 1] == ids[..i] + [ids[i]];
    LoadActionsSnoc(ics[..i], ids[..i], ics[i], ids[i], requested);
  }

  // ---------------------------------------------------------------------
  // What the load does to the store

  /** Replies stored one after the other. */
  function AddAll(m: OMap<Reply>, rs: seq<Reply>): (r: OMap<Reply>)
    decreases |rs|
  {
    if rs == [] then m else AddAll(Set(m, rs[0].localId, rs[0]), rs[1..])
  }

  function ReplyIds(rs: seq<Reply>): (r: seq<int>)
    ensures |r| == |rs| && forall j :: 0 <= j < |rs| ==> r[j] == rs[j].localId
  {
    seq(|rs|, j requires 0 <= j < |rs| => rs[j].localId)
  }

  /** Storing replies with distinct new local ids appends their ids to the
      order. */
  lemma {:induction false} AddAllKeys(m: OMap<Reply>, rs: seq<Reply>)
    requires Distinct(ReplyIds(rs)) && forall j :: 0 <= j < |rs| ==> rs[j].localId !in m.entries
    ensures AddAll(m, rs).keys == m.keys + ReplyIds(rs)
    decreases |rs|
  {
    if rs == [] {
      assert ReplyIds(rs) == [];
    } else {
      var m1 := Set(m, rs[0].localId, rs[0]);
      var tail := rs[1..];
      var ids := ReplyIds(rs);
      assert ids == [rs[0].localId] + ReplyIds(tail);
      assert Distinct(ReplyIds(tail)) by {
        forall a, b | 0 <= a < b < |tail| ensures ReplyIds(tail)[a] != ReplyIds(tail)[b] {
          assert ids[a + 1] != ids[b + 1];
        }
      }
      forall j | 0 <= j < |tail| ensures tail[j].localId !in m1.entries {
        assert ids[0] != ids[j + 1];
        assert tail[j] == rs[j + 1];
      }
      AddAllKeys(m1, tail);
      assert m1.keys == m.keys + [rs[0].localId];
      AppendAssoc(m.keys, [rs[0].localId], ReplyIds(tail));
    }
  }

  /** Storing replies with distinct local ids stores each under its id and
      leaves the replies whose ids they do not use. */
  lemma {:induction false} AddAllEntries(m: OMap<Reply>, rs: seq<Reply>)
    requires Distinct(ReplyIds(rs))
    ensures forall j :: 0 <= j < |rs| ==> rs[j].localId in AddAll(m, rs).entries
                                          && AddAll(m, rs).entries[rs[j].localId] == rs[j]
    ensures forall k :: k in m.entries && k !in ReplyIds(rs) ==>
                          k in AddAll(m, rs).entries && AddAll(m, rs).entries[k] == m.entries[k]
    decreases |rs|
  {
    if rs != [] {
      var m1 := Set(m, rs[0].localId, rs[0]);
      var tail := rs[1..];
      assert ReplyIds(rs) == [rs[0].localId] + ReplyIds(tail);
      assert Distinct(ReplyIds(tail)) by {
        forall a, b | 0 <= a < b < |tail| ensures ReplyIds(tail)[a] != ReplyIds(tail)[b] {
          assert ReplyIds(rs)[a + 1] != ReplyIds(rs)[b + 1];
        }
      }
      AddAllEntries(m1, tail);
      assert rs[0].localId !in ReplyIds(tail) by {
        forall j | 0 <= j < |tail| ensures ReplyIds(tail)[j] != rs[0].localId {
          assert ReplyIds(rs)[0] != ReplyIds(rs)[j + 1];
        }
      }
      forall j | 0 <= j < |rs|
        ensures rs[j].localId in AddAll(m, rs).entries && AddAll(m, rs).entries[rs[j].localId] == rs[j]
      {
        if j > 0 {
          assert rs[j] == tail[j - 1];
        }
      }
    }
  }

  /** The state with comment `id` replaced by `c`. */
  function WithComment(s: CommentsState, id: int, c: Comment): (t: CommentsState)
    requires id in s.comments.entries
    ensures t.comments.keys == s.comments.keys && t.comments.entries == s.comments.entries[id := c]
    ensures t.focusedComment == s.focusedComment && t.pinnedComment == s.pinnedComment
    ensures t.remoteCommentCount == s.remoteCommentCount
  {
    s.(comments := Set(s.comments, id, c))
  }

  /** Replacing a present comment twice leaves the second replacement. */
  lemma WithCommentTwice(s: CommentsState, id: int, c1: Comment, c2: Comment)
    requires id in s.comments.entries
    ensures WithComment(WithComment(s, id, c1), id, c2) == WithComment(s, id, c2)
  {
  }

  /** The comment with `rs` added as its replies, counting the truthy
      remote ids among them. */
  function WithReplies(c: Comment, rs: seq<Reply>): (r: Comment)
  {
    c.(replies := AddAll(c.replies, rs), remoteReplyCount := c.remoteReplyCount + CountTruthy(ReplyRemoteIds(rs)))
  }

  /** The comment after adding one reply. */
  function WithReply(c: Comment, r: Reply): (result: Comment)
  {
    c.(replies := Set(c.replies, r.localId, r),
       remoteReplyCount := c.remoteReplyCount + if Truthy(r.remoteId) then 1 else 0)
  }

  /** Adding replies is adding the first and then the rest. */
  lemma WithRepliesCons(c: Comment, rs: seq<Reply>)
    requires rs != []
    ensures WithReplies(c, rs) == WithReplies(WithReply(c, rs[0]), rs[1..])
  {
    CountRepliesCons(rs);
  }

  /** The truthy remote ids of replies are those of the first and those of
      the rest. */
  lemma CountRepliesCons(rs: seq<Reply>)
    requires rs != []
    ensures CountTruthy(ReplyRemoteIds(rs))
      == (if Truthy(rs[0].remoteId) then 1 else 0) + CountTruthy(ReplyRemoteIds(rs[1..]))
  {
    var ids := ReplyRemoteIds(rs);
    assert ids[1..] == ReplyRemoteIds(rs[1..]);
  }

  /** One ADD_REPLY on a present comment. */
  lemma AddReplyStep(s: CommentsState, id: int, r: Reply)
    requires FocusValid(s) && id in s.comments.entries
    ensures Next(Present(s), AddReply(id, r)) == WithComment(s, id, WithReply(s.comments.entries[id], r))
  {
  }

  /** Dispatching the additions of replies to a present comment stores them
      one after the other and counts those whose remote id is truthy. */
  lemma {:induction false} RunAddReplies(s: CommentsState, id: int, rs: seq<Reply>)
    requires FocusValid(s) && id in s.comments.entries
    ensures Run(s, AddReplies(id, rs)) == WithComment(s, id, WithReplies(s.comments.entries[id], rs))
    decreases |rs|
  {
    var c := s.comments.entries[id];
    if rs == [] {
      assert s.comments.entries[id := c] == s.comments.entries;
      assert ReplyRemoteIds(rs) == [];
    } else {
      var a := AddReply(id, rs[0]);
      var rest := rs[1..];
      RunCons(s, a, AddReplies(id, rest));
      AddReplyStep(s, id, rs[0]);
      var c1 := WithReply(c, rs[0]);
      var s1 := WithComment(s, id, c1);
      RunAddReplies(s1, id, rest);
      WithRepliesCons(c, rs);
      WithCommentTwice(s, id, c1, WithReplies(c, rs));
    }
  }

  /** Focusing and pinning a present comment: it becomes the focused (when
      its id is truthy) and pinned comment, every other comment loses its
      `isFocused` flag, and the flags stay in step with `focusedComment`. */
  lemma FocusAndPinEffect(s: CommentsState, id: int)
    requires FocusValid(s) && FocusSync(s) && id in s.comments.entries
    ensures var t := Run(s, FocusAndPin(id));
      && t.comments.keys == s.comments.keys
      && id in t.comments.entries
      && t.comments.entries[id] == s.comments.entries[id].(isFocused := id != 0)
      && (forall k :: k in s.comments.entries && k != id ==>
            k in t.comments.entries && t.comments.entries[k] == s.comments.entries[k].(isFocused := false))
      && t.focusedComment == (if id != 0 then Some(id) else None)
      && t.pinnedComment == Some(id)
      && t.remoteCommentCount == s.remoteCommentCount
      && FocusSync(t)
  {
    var a0 := SetFocusedComment(Some(id));
    RunPair(s, a0, SetPinnedComment(Some(id)));
    var s1 := Next(Present(s), a0);
    SetFocusedEffect(s, Some(id));
    SetPinnedEffect(s1, Some(id));
    forall k | k in s.comments.entries && k != id
      ensures s1.comments.entries[k] == s.comments.entries[k].(isFocused := false)
    {
      if Some(k) != s.focusedComment {
        assert !s.comments.entries[k].isFocused;
      }
    }
    if id == 0 {
      assert !s.comments.entries[id].isFocused;
    }
  }

  /** The comment a server comment becomes once the load is done with it. */
  function Loaded(ic: InitialComment, ids: LocalIds, requested: Option<int>): (c: Comment)
    requires |ids.replyIds| == |ic.replies|
  {
    var rs := LoadedReplies(ic, ids);
    LoadedComment(ic, ids.commentId).(
      replies := AddAll(Empty(), rs),
      remoteReplyCount := CountTruthy(ReplyRemoteIds(rs)),
      isFocused := Requested(ic, requested) && ids.commentId != 0,
      resolvedThisSession := if Requested(ic, requested) && ic.resolvedAt.Some? then Present(true) else Missing)
  }

  /** A loaded comment: its server id as remote id, its text, `resolvedAt`
      null exactly when `resolved_at` is null or empty, its replies stored
      in order under their new local ids with their own server ids, and the
      truthy reply ids counted. */
  lemma LoadedFields(ic: InitialComment, ids: LocalIds, requested: Option<int>)
    requires |ids.replyIds| == |ic.replies| && Distinct(ids.replyIds)
    ensures var c := Loaded(ic, ids, requested);
      && c.localId == ids.commentId && c.remoteId == Some(ic.id) && c.text == ic.text
      && c.contentpath == ic.contentPath && c.author == Some(ic.author) && c.mode == Default
      && (c.resolvedAt == Present(None) <==> ic.resolvedAt.None? || ic.resolvedAt.value == "")
      && c.replies.keys == ids.replyIds
      && (forall j :: 0 <= j < |ic.replies| ==>
            && c.replies.entries[ids.replyIds[j]].remoteId == Some(ic.replies[j].id)
            && c.replies.entries[ids.replyIds[j]].text == ic.replies[j].text)
      && c.remoteReplyCount <= |ic.replies|
      && (c.resolvedThisSession == Present(true) <==> Requested(ic, requested) && ic.resolvedAt.Some?)
  {
    LoadedRepliesStored(ic, ids);
  }

  /** The loaded replies, stored one after the other in an empty map: in
      order under their local ids, each with its server id and text. */
  lemma LoadedRepliesStored(ic: InitialComment, ids: LocalIds)
    requires |ids.replyIds| == |ic.replies| && Distinct(ids.replyIds)
    ensures var m := AddAll(Empty(), LoadedReplies(ic, ids));
      && m.keys == ids.replyIds
      && (forall j :: 0 <= j < |ic.replies| ==>
            && m.entries[ids.replyIds[j]].remoteId == Some(ic.replies[j].id)
            && m.entries[ids.replyIds[j]].text == ic.replies[j].text)
  {
    var rs := LoadedReplies(ic, ids);
    assert ReplyIds(rs) == ids.replyIds;
    AddAllEntries(Empty(), rs);
    AddAllKeys(Empty(), rs);
    assert Empty<Reply>().keys + ReplyIds(rs) == ids.replyIds;
  }

  /** The first part of a block: the comment and its replies. */
  lemma AddBlockEffect(s: CommentsState, ic: InitialComment, ids: LocalIds)
    requires FocusValid(s) && FocusSync(s) && |ids.replyIds| == |ic.replies| && ids.commentId !in s.comments.entries
    ensures var t := Run(s, [AddComment(LoadedComment(ic, ids.commentId))] + AddReplies(ids.commentId, LoadedReplies(ic, ids)));
      && t.comments.keys == s.comments.keys + [ids.commentId]
      && ids.commentId in t.comments.entries
      && t.comments.entries == s.comments.entries[ids.commentId := Loaded(ic, ids, None)]
      && t.focusedComment == s.focusedComment && t.pinnedComment == s.pinnedComment
      && t.remoteCommentCount == s.remoteCommentCount + (if ic.id != 0 then 1 else 0)
      && FocusSync(t)
  {
    var cid := ids.commentId;
    var c := LoadedComment(ic, cid);
    var rs := LoadedReplies(ic, ids);
    RunCons(s, AddComment(c), AddReplies(cid, rs));
    AddCommentEffect(s, c);
    var s1 := Next(Present(s), AddComment(c));
    RunAddReplies(s1, cid, rs);
    LoadedWithReplies(ic, ids);
    UpdateTwice(s.comments.entries, cid, c, Loaded(ic, ids, None));
  }

  /** The loaded comment is the added comment with its replies stored. */
  lemma LoadedWithReplies(ic: InitialComment, ids: LocalIds)
    requires |ids.replyIds| == |ic.replies|
    ensures WithReplies(LoadedComment(ic, ids.commentId), LoadedReplies(ic, ids)) == Loaded(ic, ids, None)
  {
  }

  /** Marking a present comment resolved in this session sets its flag and
      changes nothing else. */
  lemma ResolveEffect(s: CommentsState, id: int)
    requires FocusValid(s) && id in s.comments.entries
    ensures Run(s, [UpdateComment(id, ResolvedThisSession)])
         == WithComment(s, id, s.comments.entries[id].(resolvedThisSession := Present(true)))
  {
    RunCons(s, UpdateComment(id, ResolvedThisSession), []);
    UpdateCommentEffect(s, id, ResolvedThisSession);
  }

  /** Replacing a comment by one with the same `isFocused` flag keeps the
      flags in step with `focusedComment`. */
  lemma WithCommentKeepsSync(s: CommentsState, id: int, c: Comment)
    requires FocusSync(s) && id in s.comments.entries && c.isFocused == s.comments.entries[id].isFocused
    ensures FocusSync(WithComment(s, id, c))
  {
  }

  /** The actions for the requested comment, when it is the requested one:
      it takes focus and pin, and its `resolvedThisSession` flag is set when
      its `resolved_at` is not `null`. */
  lemma FocusRequestedEffect(s: CommentsState, ic: InitialComment, id: int, requested: Option<int>)
    requires FocusValid(s) && FocusSync(s) && id in s.comments.entries && Requested(ic, requested)
    requires s.comments.entries[id].resolvedThisSession.Missing?
    ensures var t := Run(s, RequestedActions(ic, id, requested));
      && t.comments.keys == s.comments.keys
      && id in t.comments.entries
      && t.comments.entries[id] == s.comments.entries[id].(
           isFocused := id != 0,
           resolvedThisSession := if ic.resolvedAt.Some? then Present(true) else Missing)
      && (forall k :: k in s.comments.entries && k != id ==>
            k in t.comments.entries && t.comments.entries[k] == s.comments.entries[k].(isFocused := false))
      && t.focusedComment == (if id != 0 then Some(id) else None)
      && t.pinnedComment == Some(id)
      && t.remoteCommentCount == s.remoteCommentCount
      && FocusSync(t)
  {
    FocusAndPinEffect(s, id);
    var s1 := Run(s, FocusAndPin(id));
    var rest := RequestedActions(ic, id, requested)[2..];
    assert RequestedActions(ic, id, requested) == FocusAndPin(id) + rest;
    RunAppend(s, FocusAndPin(id), rest);
    if ic.resolvedAt.Some? {
      assert rest == [UpdateComment(id, ResolvedThisSession)];
      ResolveEffect(s1, id);
      WithCommentKeepsSync(s1, id, s1.comments.entries[id].(resolvedThisSession := Present(true)));
    } else {
      assert s1.comments.entries[id].resolvedThisSession.Missing?;
    }
  }

  /** The second part of a block: the actions for the requested comment. */
  lemma RequestedEffect(s: CommentsState, ic: InitialComment, id: int, requested: Option<int>)
    requires FocusValid(s) && FocusSync(s) && id in s.comments.entries
    requires s.comments.entries[id].resolvedThisSession.Missing?
    ensures var t := Run(s, RequestedActions(ic, id, requested));
      && t.comments.keys == s.comments.keys
      && id in t.comments.entries
      && t.comments.entries[id] == s.comments.entries[id].(
           isFocused := if Requested(ic, requested) then id != 0 else s.comments.entries[id].isFocused,
           resolvedThisSession := if Requested(ic, requested) && ic.resolvedAt.Some? then Present(true) else Missing)
      && (forall k :: k in s.comments.entries && k != id ==>
            k in t.comments.entries
            && t.comments.entries[k] == s.comments.entries[k].(
                 isFocused := s.comments.entries[k].isFocused && !Requested(ic, requested)))
      && t.focusedComment == (if Requested(ic, requested) then (if id != 0 then Some(id) else None) else s.focusedComment)
      && t.pinnedComment == (if Requested(ic, requested) then Some(id) else s.pinnedComment)
      && t.remoteCommentCount == s.remoteCommentCount
      && FocusSync(t)
  {
    if Requested(ic, requested) {
      FocusRequestedEffect(s, ic, id, requested);
    } else {
      assert s.comments.entries[id].(isFocused := s.comments.entries[id].isFocused, resolvedThisSession := Missing)
          == s.comments.entries[id];
      forall k | k in s.comments.entries && k != id
        ensures s.comments.entries[k].(isFocused := s.comments.entries[k].isFocused) == s.comments.entries[k]
      {
      }
    }
  }

  /** One server comment: it joins the end of the order as its loaded form;
      the comments already there keep everything but, when it is the
      requested one, their `isFocused` flag; focus and pin move to it when
      it is requested; the remote count grows when its server id is
      truthy; and the flags stay in step with `focusedComment`. */
  lemma BlockEffect(s: CommentsState, ic: InitialComment, ids: LocalIds, requested: Option<int>)
    requires FocusValid(s) && FocusSync(s) && |ids.replyIds| == |ic.replies| && ids.commentId !in s.comments.entries
    ensures var t := Run(s, BlockActions(ic, ids, requested));
      var cid := ids.commentId;
      && t.comments.keys == s.comments.keys + [cid]
      && cid in t.comments.entries
      && t.comments.entries[cid] == Loaded(ic, ids, requested)
      && (forall k :: k in s.comments.entries ==>
            k in t.comments.entries
            && t.comments.entries[k] == s.comments.entries[k].(
                 isFocused := s.comments.entries[k].isFocused && !Requested(ic, requested)))
      && t.focusedComment == (if Requested(ic, requested) then (if cid != 0 then Some(cid) else None) else s.focusedComment)
      && t.pinnedComment == (if Requested(ic, requested) then Some(cid) else s.pinnedComment)
      && t.remoteCommentCount == s.remoteCommentCount + (if ic.id != 0 then 1 else 0)
      && FocusSync(t)
  {
    var cid := ids.commentId;
    var adds := [AddComment(LoadedComment(ic, cid))] + AddReplies(cid, LoadedReplies(ic, ids));
    assert BlockActions(ic, ids, requested) == adds + RequestedActions(ic, cid, requested);
    RunAppend(s, adds, RequestedActions(ic, cid, requested));
    AddBlockEffect(s, ic, ids);
    var s1 := Run(s, adds);
    assert s1.comments.entries[cid] == Loaded(ic, ids, None);
    RequestedEffect(s1, ic, cid, requested);
    var t := Run(s1, RequestedActions(ic, cid, requested));
    assert t.comments.entries[cid] == Loaded(ic, ids, requested);
    forall k | k in s.comments.entries
      ensures k in t.comments.entries
      ensures t.comments.entries[k] == s.comments.entries[k].(
                isFocused := s.comments.entries[k].isFocused && !Requested(ic, requested))
    {
      assert k != cid && s1.comments.entries[k] == s.comments.entries[k];
    }
  }

  /** The local id of the last requested comment of the load, if any. */
  function LastRequested(ics: seq<InitialComment>, ids: seq<LocalIds>, requested: Option<int>): (r: Option<int>)
    requires |ids| == |ics|
    ensures r.Some? <==> exists i :: 0 <= i < |ics| && Requested(ics[i], requested)
    ensures r.Some? ==> exists i :: 0 <= i < |ics| && Requested(ics[i], requested) && r.value == ids[i].commentId
    decreases |ics|
  {
    if ics == [] then None
    else
      var rest := LastRequested(ics[1..], ids[1..], requested);
      assert forall i :: 1 <= i < |ics| ==> ics[i] == ics[1..][i - 1] && ids[i] == ids[1..][i - 1];
      if rest.Some? then rest
      else if Requested(ics[0], requested) then Some(ids[0].commentId)
      else None
  }

  /** The load of a non-empty list: the first server comment's block, then
      the load of the rest. */
  lemma LoadCons(s: CommentsState, ics: seq<InitialComment>, ids: seq<LocalIds>, requested: Option<int>)
    requires FocusValid(s) && IdsFit(ics, ids) && ics != []
    ensures IdsFit(ics[1..], ids[1..])
    ensures Run(s, LoadActions(ics, ids, requested))
         == Run(Run(s, BlockActions(ics[0], ids[0], requested)), LoadActions(ics[1..], ids[1..], requested))
  {
    LoadActionsUnfold(ics, ids, requested);
    RunAppend(s, BlockActions(ics[0], ids[0], requested), LoadActions(ics[1..], ids[1..], requested));
  }

  /** Once the first server comment is in, the local ids of the others are
      still distinct and still not in the store. */
  lemma LoadTailFresh(s: CommentsState, s1: CommentsState, ids: seq<LocalIds>)
    requires ids != [] && Distinct(CommentIds(ids))
    requires forall i :: 0 <= i < |ids| ==> ids[i].commentId !in s.comments.entries
    requires s1.comments.keys == s.comments.keys + [ids[0].commentId]
    ensures CommentIds(ids) == [ids[0].commentId] + CommentIds(ids[1..])
    ensures Distinct(CommentIds(ids[1..]))
    ensures forall i :: 0 <= i < |ids| - 1 ==> ids[1..][i].commentId !in s1.comments.entries
  {
    var tail := ids[1..];
    assert CommentIds(ids) == [ids[0].commentId] + CommentIds(tail);
    assert Distinct(CommentIds(tail)) by {
      forall a, b | 0 <= a < b < |tail| ensures CommentIds(tail)[a] != CommentIds(tail)[b] {
        assert CommentIds(ids)[a + 1] != CommentIds(ids)[b + 1];
      }
    }
    forall i | 0 <= i < |tail| ensures tail[i].commentId !in s1.comments.entries {
      assert tail[i] == ids[i + 1];
      assert CommentIds(ids)[0] != CommentIds(ids)[i + 1];
      assert tail[i].commentId !in s1.comments.keys;
    }
  }

  /** The comments of `s` are still in `t`, changed at most in their
      `isFocused` flag. */
  ghost predicate KeepsComments(s: CommentsState, t: CommentsState) {
    forall k :: k in s.comments.entries ==>
      k in t.comments.entries
      && t.comments.entries[k] == s.comments.entries[k].(isFocused := t.comments.entries[k].isFocused)
  }

  /** Each server comment of the list is in `t` under its local id, in its
      loaded form up to its `isFocused` flag. */
  ghost predicate HoldsLoaded(t: CommentsState, ics: seq<InitialComment>, ids: seq<LocalIds>, requested: Option<int>)
    requires IdsFit(ics, ids)
  {
    forall i :: 0 <= i < |ics| ==>
      ids[i].commentId in t.comments.entries
      && t.comments.entries[ids[i].commentId]
         == Loaded(ics[i], ids[i], requested).(isFocused := t.comments.entries[ids[i].commentId].isFocused)
  }

  /** The order and the count after the load, from any state that does
      not hold its fresh local ids yet: the new comments join the order in
      load order, and the remote count grows by the truthy server ids. */
  lemma {:induction false} LoadOrder(s: CommentsState, ics: seq<InitialComment>, ids: seq<LocalIds>, requested: Option<int>)
    requires FocusValid(s) && FocusSync(s) && IdsFit(ics, ids)
    requires Distinct(CommentIds(ids)) && forall i :: 0 <= i < |ids| ==> ids[i].commentId !in s.comments.entries
    ensures var t := Run(s, LoadActions(ics, ids, requested));
      && t.comments.keys == s.comments.keys + CommentIds(ids)
      && t.remoteCommentCount == s.remoteCommentCount + CountTruthy(ServerIds(ics))
    decreases |ics|
  {
    if ics == [] {
      assert CommentIds(ids) == [] && ServerIds(ics) == [];
    } else {
      LoadCons(s, ics, ids, requested);
      var s1 := Run(s, BlockActions(ics[0], ids[0], requested));
      BlockOrder(s, ics[0], ids[0], requested);
      LoadTailFresh(s, s1, ids);
      LoadOrder(s1, ics[1..], ids[1..], requested);
      var t := Run(s1, LoadActions(ics[1..], ids[1..], requested));
      AppendAssoc(s.comments.keys, [ids[0].commentId], CommentIds(ids[1..]));
      assert t.comments.keys == s.comments.keys + CommentIds(ids);
      CountServerIdsCons(ics);
    }
  }

  /** The order and the count after one server comment. */
  lemma BlockOrder(s: CommentsState, ic: InitialComment, ids: LocalIds, requested: Option<int>)
    requires FocusValid(s) && FocusSync(s) && |ids.replyIds| == |ic.replies| && ids.commentId !in s.comments.entries
    ensures var t := Run(s, BlockActions(ic, ids, requested));
      && t.comments.keys == s.comments.keys + [ids.commentId]
      && t.remoteCommentCount == s.remoteCommentCount + (if ic.id != 0 then 1 else 0)
      && FocusSync(t)
  {
    BlockEffect(s, ic, ids, requested);
  }

  /** The truthy server ids of a non-empty list: the first one's, then the
      rest's. */
  lemma CountServerIdsCons(ics: seq<InitialComment>)
    requires ics != []
    ensures CountTruthy(ServerIds(ics)) == (if ics[0].id != 0 then 1 else 0) + CountTruthy(ServerIds(ics[1..]))
  {
    assert ServerIds(ics)[1..] == ServerIds(ics[1..]);
  }

  /** Focus and pin after the load: on the last requested comment, or where
      they were when none is requested; and the flags stay in step. */
  lemma {:induction false} LoadFocus(s: CommentsState, ics: seq<InitialComment>, ids: seq<LocalIds>, requested: Option<int>)
    requires FocusValid(s) && FocusSync(s) && IdsFit(ics, ids)
    requires Distinct(CommentIds(ids)) && forall i :: 0 <= i < |ids| ==> ids[i].commentId !in s.comments.entries
    ensures var t := Run(s, LoadActions(ics, ids, requested));
      var last := LastRequested(ics, ids, requested);
      && t.pinnedComment == (if last.Some? then last else s.pinnedComment)
      && t.focusedComment == (if last.Some? then (if last.value != 0 then last else None) else s.focusedComment)
      && FocusSync(t)
    decreases |ics|
  {
    if ics != [] {
      LoadCons(s, ics, ids, requested);
      BlockEffect(s, ics[0], ids[0], requested);
      var s1 := Run(s, BlockActions(ics[0], ids[0], requested));
      LoadTailFresh(s, s1, ids);
      LoadFocus(s1, ics[1..], ids[1..], requested);
    }
  }

  /** The comments already in the store before the load keep everything but
      their `isFocused` flag. */
  lemma {:induction false} LoadKeeps(s: CommentsState, ics: seq<InitialComment>, ids: seq<LocalIds>, requested: Option<int>)
    requires FocusValid(s) && FocusSync(s) && IdsFit(ics, ids)
    requires Distinct(CommentIds(ids)) && forall i :: 0 <= i < |ids| ==> ids[i].commentId !in s.comments.entries
    ensures KeepsComments(s, Run(s, LoadActions(ics, ids, requested)))
    decreases |ics|
  {
    if ics != [] {
      LoadCons(s, ics, ids, requested);
      BlockEffect(s, ics[0], ids[0], requested);
      var s1 := Run(s, BlockActions(ics[0], ids[0], requested));
      LoadTailFresh(s, s1, ids);
      LoadKeeps(s1, ics[1..], ids[1..], requested);
      var t := Run(s1, LoadActions(ics[1..], ids[1..], requested));
      forall k | k in s.comments.entries
        ensures k in t.comments.entries
        ensures t.comments.entries[k] == s.comments.entries[k].(isFocused := t.comments.entries[k].isFocused)
      {
        assert k in s1.comments.entries;
      }
    }
  }

  /** Each server comment of the load ends in the store in its loaded form,
      up to its `isFocused` flag. */
  lemma {:induction false} LoadHolds(s: CommentsState, ics: seq<InitialComment>, ids: seq<LocalIds>, requested: Option<int>)
    requires FocusValid(s) && FocusSync(s) && IdsFit(ics, ids)
    requires Distinct(CommentIds(ids)) && forall i :: 0 <= i < |ids| ==> ids[i].commentId !in s.comments.entries
    ensures HoldsLoaded(Run(s, LoadActions(ics, ids, requested)), ics, ids, requested)
    decreases |ics|
  {
    if ics != [] {
      LoadCons(s, ics, ids, requested);
      BlockEffect(s, ics[0], ids[0], requested);
      var s1 := Run(s, BlockActions(ics[0], ids[0], requested));
      LoadTailFresh(s, s1, ids);
      LoadHolds(s1, ics[1..], ids[1..], requested);
      LoadKeeps(s1, ics[1..], ids[1..], requested);
      var t := Run(s1, LoadActions(ics[1..], ids[1..], requested));
      var cid := ids[0].commentId;
      assert cid in s1.comments.entries;
      forall i | 0 <= i < |ics|
        ensures ids[i].commentId in t.comments.entries
        ensures t.comments.entries[ids[i].commentId]
             == Loaded(ics[i], ids[i], requested).(isFocused := t.comments.entries[ids[i].commentId].isFocused)
      {
        if i > 0 {
          assert ics[i] == ics[1..][i - 1] && ids[i] == ids[1..][i - 1];
        }
      }
    }
  }

  /** The load, from any state that does not hold its fresh local ids yet:
      its shape, the comments already there, and the loaded comments. */
  lemma LoadEffect(s: CommentsState, ics: seq<InitialComment>, ids: seq<LocalIds>, requested: Option<int>)
    requires FocusValid(s) && FocusSync(s) && IdsFit(ics, ids)
    requires Distinct(CommentIds(ids)) && forall i :: 0 <= i < |ids| ==> ids[i].commentId !in s.comments.entries
    ensures var t := Run(s, LoadActions(ics, ids, requested));
      var last := LastRequested(ics, ids, requested);
      && t.comments.keys == s.comments.keys + CommentIds(ids)
      && HoldsLoaded(t, ics, ids, requested)
      && KeepsComments(s, t)
      && t.remoteCommentCount == s.remoteCommentCount + CountTruthy(ServerIds(ics))
      && t.pinnedComment == (if last.Some? then last else s.pinnedComment)
      && t.focusedComment == (if last.Some? then (if last.value != 0 then last else None) else s.focusedComment)
      && FocusSync(t)
  {
    LoadOrder(s, ics, ids, requested);
    LoadFocus(s, ics, ids, requested);
    LoadKeeps(s, ics, ids, requested);
    LoadHolds(s, ics, ids, requested);
  }

  /** The initial load on the empty store: the server comments in order
      under their fresh local ids, and the remote count their truthy server
      ids. (Each is in its loaded form by `LoadEffect`.) */
  lemma InitialLoad(ics: seq<InitialComment>, ids: seq<LocalIds>, requested: Option<int>)
    requires IdsFit(ics, ids) && Distinct(CommentIds(ids))
    ensures var t := Run(CommentsReducer.InitialState(), LoadActions(ics, ids, requested));
      && t.comments.keys == CommentIds(ids)
      && t.remoteCommentCount == CountTruthy(ServerIds(ics))
  {
    var s := CommentsReducer.InitialState();
    LoadOrder(s, ics, ids, requested);
    AppendToEmpty(s.comments.keys, CommentIds(ids));
  }

  /** After the initial load, focus and pin are on the last requested
      comment, or `null` when none is requested, and the flags agree. */
  lemma InitialLoadFocus(ics: seq<InitialComment>, ids: seq<LocalIds>, requested: Option<int>)
    requires IdsFit(ics, ids) && Distinct(CommentIds(ids))
    ensures var t := Run(CommentsReducer.InitialState(), LoadActions(ics, ids, requested));
      var last := LastRequested(ics, ids, requested);
      && t.pinnedComment == last
      && t.focusedComment == (if last.Some? && last.value != 0 then last else None)
      && FocusSync(t)
  {
    LoadFocus(CommentsReducer.InitialState(), ics, ids, requested);
  }

  // ---------------------------------------------------------------------
  // Creating a comment

  /** `makeComment`: add a comment in mode `creating` on the annotation,
      authored by the settings' user, then focus and pin it. */
  function MakeCommentActions(annotation: Annotation, contentPath: string, commentId: int,
                              user: Option<Author>, now: int): (acts: seq<Action>)
    ensures |acts| == 3 && acts[1..] == FocusAndPin(commentId)
    ensures acts[0].AddComment? && acts[0].comment.mode == Creating && acts[0].comment.author == user
  {
    [AddComment(NewComment(contentPath, commentId, Some(annotation), user, now, None, Creating))]
    + FocusAndPin(commentId)
  }

  /** Makes a comment in the store; `commentId` is the fresh id and `now`
      the current time. */
  method MakeComment(store: Store, annotation: Annotation, contentPath: string, commentId: int, now: int)
    requires store.Valid()
    modifies store
    ensures store.Valid()
    ensures store.log == old(store.log)
      + MakeCommentActions(annotation, contentPath, commentId, old(store.settings).user.value, now)
    ensures store.settings == old(store.settings)
  {
    var user := store.settings.user.value;
    store.Dispatch(AddComment(NewComment(contentPath, commentId, Some(annotation), user, now, None, Creating)));
    store.Dispatch(SetFocusedComment(Some(commentId)));
    store.Dispatch(SetPinnedComment(Some(commentId)));
    assert [AddComment(NewComment(contentPath, commentId, Some(annotation), user, now, None, Creating))]
         + [SetFocusedComment(Some(commentId))] + [SetPinnedComment(Some(commentId))]
        == MakeCommentActions(annotation, contentPath, commentId, user, now);
  }

  /** A made comment joins the end of the order in mode `creating`, on its
      annotation, by the user, unresolved; it is focused (when its id is
      truthy) and pinned. The previously focused comment loses its flag and
      every other comment is kept. */
  lemma MakeCommentEffect(s: CommentsState, annotation: Annotation, contentPath: string, commentId: int,
                          user: Option<Author>, now: int)
    requires FocusValid(s) && commentId !in s.comments.entries
    ensures var t := Run(s, MakeCommentActions(annotation, contentPath, commentId, user, now));
      && t.comments.keys == s.comments.keys + [commentId]
      && commentId in t.comments.entries
      && (var c := t.comments.entries[commentId];
          && c.mode == Creating && c.author == user && c.annotation == Some(annotation) && c.contentpath == contentPath
          && c.remoteId.None? && c.resolvedAt == Present(None) && c.isFocused == (commentId != 0))
      && (forall k :: k in s.comments.entries ==>
            k in t.comments.entries
            && t.comments.entries[k] == (if s.focusedComment == Some(k) then s.comments.entries[k].(isFocused := false)
                                         else s.comments.entries[k]))
      && t.focusedComment == (if commentId != 0 then Some(commentId) else None)
      && t.pinnedComment == Some(commentId)
      && t.remoteCommentCount == s.remoteCommentCount
  {
    var c := NewComment(contentPath, commentId, Some(annotation), user, now, None, Creating);
    var acts := MakeCommentActions(annotation, contentPath, commentId, user, now);
    assert acts == [AddComment(c)] + FocusAndPin(commentId);
    RunCons(s, AddComment(c), FocusAndPin(commentId));
    AddCommentEffect(s, c);
    var s1 := Next(Present(s), AddComment(c));
    assert s1.comments.entries == s.comments.entries[commentId := c] && s1.focusedComment == s.focusedComment;
    RunPair(s1, SetFocusedComment(Some(commentId)), SetPinnedComment(Some(commentId)));
    SetFocusedEffect(s1, Some(commentId));
    var s2 := Next(Present(s1), SetFocusedComment(Some(commentId)));
    SetPinnedEffect(s2, Some(commentId));
    var t := Run(s, acts);
    assert t == s2.(pinnedComment := Some(commentId));
    forall k | k in s.comments.entries
      ensures k in t.comments.entries
      ensures t.comments.entries[k] == (if s.focusedComment == Some(k) then s.comments.entries[k].(isFocused := false)
                                        else s.comments.entries[k])
    {
      assert k != commentId;
    }
  }

  /** When the flags were in step with `focusedComment` before a comment is
      made, every old comment ends unflagged and the flags stay in step. */
  lemma MakeCommentKeepsSync(s: CommentsState, annotation: Annotation, contentPath: string, commentId: int,
                             user: Option<Author>, now: int)
    requires FocusValid(s) && FocusSync(s) && commentId !in s.comments.entries
    ensures var t := Run(s, MakeCommentActions(annotation, contentPath, commentId, user, now));
      && (forall k :: k in s.comments.entries ==>
            k in t.comments.entries && t.comments.entries[k] == s.comments.entries[k].(isFocused := false))
      && FocusSync(t)
  {
    var c := NewComment(contentPath, commentId, Some(annotation), user, now, None, Creating);
    var acts := MakeCommentActions(annotation, contentPath, commentId, user, now);
    assert acts == [AddComment(c)] + FocusAndPin(commentId);
    RunCons(s, AddComment(c), FocusAndPin(commentId));
    AddCommentEffect(s, c);
    var s1 := Next(Present(s), AddComment(c));
    assert FocusSync(s1);
    FocusAndPinEffect(s1, commentId);
  }
}
