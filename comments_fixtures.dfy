/** The two-comment state shared by the reducer and selector tests in
    src/state/comments.test.ts, and the expectations of those tests. */
module CommentsFixtures {
  import opened Js
  import opened OrderedMaps
  import opened CommentTypes
  import opened CommentActions
  import opened CommentsReducer

  function FixtureReply(localId: int, remoteId: Option<int>, user: Author, text: string): (r: Reply)
    ensures r.localId == localId && r.remoteId == remoteId && !r.deleted && r.mode == Default
  {
    Reply(localId, remoteId, Default, Some(user), 0, text, "", false, Missing)
  }

  function FixtureComment(path: string, localId: int, remoteId: Option<int>, user: Author, text: string,
                          replies: OMap<Reply>): (c: Comment)
    ensures c.contentpath == path && c.localId == localId && c.remoteId == remoteId
    ensures !c.deleted && c.mode == Default && c.replies == replies
  {
    Comment(path, localId, None, remoteId, Default, false, Some(user), Some(0), text, replies, "", "",
            false, 0, Missing, Missing, Missing, Missing)
  }

  /** Comment 1: remote, path `test_contentpath`, with a remote reply 2
      and a local reply 3. */
  function Comment1(user: Author): (c: Comment)
    ensures c.remoteId == Some(1) && c.contentpath == "test_contentpath"
    ensures c.replies.keys == [2, 3]
    ensures c.replies.entries[2].remoteId == Some(2) && c.replies.entries[3].remoteId.None?
  {
    var replies := Set(Set(Empty(), 2, FixtureReply(2, Some(2), user, "a reply")),
                       3, FixtureReply(3, None, user, "another reply"));
    FixtureComment("test_contentpath", 1, Some(1), user, "test text", replies)
  }

  /** Comment 4: local, path `test_contentpath_2`, no replies. */
  function Comment4(user: Author): (c: Comment)
    ensures c.remoteId.None? && c.contentpath == "test_contentpath_2" && c.replies.keys == []
  {
    FixtureComment("test_contentpath_2", 4, None, user, "unsaved comment", Empty())
  }

  /** Comments 1 and 4, comment 1 focused and pinned. */
  function BasicCommentsState(user: Author): (s: CommentsState)
    ensures FocusValid(s)
    ensures s.comments.keys == [1, 4]
    ensures s.comments.entries == map[1 := Comment1(user), 4 := Comment4(user)]
    ensures s.focusedComment == Some(1) && s.pinnedComment == Some(1)
  {
    CommentsState(Set(Set(Empty(), 1, Comment1(user)), 4, Comment4(user)), Some(1), Some(1), 0)
  }

  /** A reducer started without a state has nothing focused, pinned or stored. */
  lemma InitialStateTest()
    ensures var s := InitialState(); s.focusedComment.None? && s.pinnedComment.None? && |s.comments.keys| == 0
  {
  }

  lemma AddCommentTest(user: Author)
    ensures var c := FixtureComment("test_contentpath", 5, None, user, "new comment", Empty());
      Next(Present(BasicCommentsState(user)), AddComment(c)).comments.entries[5] == c
  {
  }

  lemma UpdateCommentTest(user: Author)
    ensures Next(Present(BasicCommentsState(user)),
                 UpdateComment(1, NoCommentChange.(mode := Present(Editing)))).comments.entries[1].mode == Editing
  {
  }

  lemma DeleteCommentTests(user: Author)
    ensures 4 !in Next(Present(BasicCommentsState(user)), DeleteComment(4)).comments.entries
    ensures var r := Next(Present(BasicCommentsState(user)), DeleteComment(1));
      1 in r.comments.entries && r.comments.entries[1].deleted && r.focusedComment.None?
  {
  }

  lemma FocusTest(user: Author)
    ensures Next(Present(BasicCommentsState(user)), SetFocusedComment(Some(4))).focusedComment == Some(4)
  {
  }

  lemma AddReplyTest(user: Author)
    ensures var reply := FixtureReply(10, None, user, "a new reply");
      Next(Present(BasicCommentsState(user)), AddReply(1, reply)).comments.entries[1].replies.entries[10] == reply
  {
  }

  lemma UpdateReplyTest(user: Author)
    ensures Next(Present(BasicCommentsState(user)), UpdateReply(1, 2, NoReplyChange.(mode := Present(Editing))))
              .comments.entries[1].replies.entries[2].mode == Editing
  {
  }

  lemma DeleteReplyTests(user: Author)
    ensures 3 !in Next(Present(BasicCommentsState(user)), DeleteReply(1, 3)).comments.entries[1].replies.entries
    ensures var r := Next(Present(BasicCommentsState(user)), DeleteReply(1, 2)).comments.entries[1].replies;
      2 in r.entries && r.entries[2].deleted
  {
  }
}
