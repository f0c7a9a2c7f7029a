/** The comments store: its state, its reducer and what the reducer keeps. */
module CommentsReducer {
  import opened Js
  import opened OrderedMaps
  import opened CommentTypes
  import opened CommentActions

  datatype CommentsState = CommentsState(
    comments: OMap<Comment>,
    focusedComment: Option<int>,
    pinnedComment: Option<int>,
    remoteCommentCount: int)

  function InitialState(): (s: CommentsState)
    ensures s.comments.keys == [] && s.comments.entries == map[]
    ensures s.focusedComment.None? && s.pinnedComment.None? && s.remoteCommentCount == 0
  {
    CommentsState(Empty(), None, None, 0)
  }

  /** The focused comment, if there is one, has a truthy id that is a key of
      the map. Every state the reducer produces from the initial state has
      this property; on a state without it the reducer would store a record
      that is not a comment. */
  predicate FocusValid(s: CommentsState) {
    s.focusedComment.None? || (Truthy(s.focusedComment) && s.focusedComment.value in s.comments.entries)
  }

  /** The `isFocused` flags agree with `focusedComment`. */
  ghost predicate FocusSync(s: CommentsState) {
    forall k :: k in s.comments.entries ==>
      (s.comments.entries[k].isFocused <==> s.focusedComment == Some(k))
  }

  /** The reducer, stated as map operations on the old state. An undefined
      state is the initial state. */
  function Next(state: Slot<CommentsState>, action: Action): (r: CommentsState)
    requires state.Present? ==> FocusValid(state.value)
    ensures FocusValid(r)
  {
    var s := if state.Missing? then InitialState() else state.value;
    var m := s.comments;
    match action
    case AddComment(c) =>
      s.(comments := Set(m, c.localId, c),
         remoteCommentCount := s.remoteCommentCount + if Truthy(c.remoteId) then 1 else 0)
    case UpdateComment(id, u) =>
      if id !in m.entries then s
      else s.(comments := Set(m, id, MergeComment(m.entries[id], u)))
    case DeleteComment(id) =>
      if id !in m.entries then s
      else
        var c := m.entries[id];
        s.(comments := if Truthy(c.remoteId) then Set(m, id, c.(deleted := true)) else Delete(m, id),
           focusedComment := if s.focusedComment == Some(id) then None else s.focusedComment)
    case SetFocusedComment(target) =>
      var cleared :=
        if s.focusedComment.None? then m
        else Set(m, s.focusedComment.value, m.entries[s.focusedComment.value].(isFocused := false));
      if Truthy(target) && target.value in cleared.entries then
        s.(comments := Set(cleared, target.value, cleared.entries[target.value].(isFocused := true)),
           focusedComment := target)
      else
        s.(comments := cleared, focusedComment := None)
    case SetPinnedComment(p) =>
      s.(pinnedComment := p)
    case AddReply(id, reply) =>
      if id !in m.entries then s
      else
        var c := m.entries[id];
        s.(comments := Set(m, id, c.(replies := Set(c.replies, reply.localId, reply),
                                     remoteReplyCount := c.remoteReplyCount + if Truthy(reply.remoteId) then 1 else 0)))
    case UpdateReply(id, replyId, u) =>
      if id !in m.entries || replyId !in m.entries[id].replies.entries then s
      else
        var c := m.entries[id];
        s.(comments := Set(m, id, c.(replies := Set(c.replies, replyId, MergeReply(c.replies.entries[replyId], u)))))
    case DeleteReply(id, replyId) =>
      if id !in m.entries || replyId !in m.entries[id].replies.entries then s
      else
        var c := m.entries[id];
        var reply := c.replies.entries[replyId];
        s.(comments := Set(m, id, c.(replies :=
             if Truthy(reply.remoteId) then Set(c.replies, replyId, reply.(deleted := true))
             else Delete(c.replies, replyId))))
  }

  /** The reducer as the store runs it: start from the initial state when
      there is none, copy the map, then change the copy step by step. */
  method Reduce(state: Slot<CommentsState>, action: Action) returns (next: CommentsState)
    requires state.Present? ==> FocusValid(state.value)
    ensures next == Next(state, action)
  {
    next := if state.Missing? then InitialState() else state.value;
    match action {
      case AddComment(c) =>
        next := next.(comments := Set(next.comments, c.localId, c));
        if Truthy(c.remoteId) {
          next := next.(remoteCommentCount := next.remoteCommentCount + 1);
        }
      case UpdateComment(id, u) =>
        if id in next.comments.entries {
          next := next.(comments := Set(next.comments, id, MergeComment(next.comments.entries[id], u)));
        }
      case DeleteComment(id) =>
        if id in next.comments.entries {
          var c := next.comments.entries[id];
          if !Truthy(c.remoteId) {
            next := next.(comments := Delete(next.comments, id));
          } else {
            next := next.(comments := Set(next.comments, id, MergeComment(c, NoCommentChange.(deleted := Present(true)))));
          }
          if next.focusedComment == Some(id) {
            next := next.(focusedComment := None);
          }
        }
      case SetFocusedComment(target) =>
        next := ReduceFocus(next, target);
      case SetPinnedComment(p) =>
        next := next.(pinnedComment := p);
      case AddReply(id, reply) =>
        next := ReduceAddReply(next, id, reply);
      case UpdateReply(id, replyId, u) =>
        if id in next.comments.entries && replyId in next.comments.entries[id].replies.entries {
          var c := next.comments.entries[id];
          c := c.(replies := Set(c.replies, replyId, MergeReply(c.replies.entries[replyId], u)));
          next := next.(comments := Set(next.comments, id, c));
        }
      case DeleteReply(id, replyId) =>
        if id in next.comments.entries && replyId in next.comments.entries[id].replies.entries {
          var c := next.comments.entries[id];
          var reply := c.replies.entries[replyId];
          if !Truthy(reply.remoteId) {
            c := c.(replies := Delete(c.replies, replyId));
          } else {
            c := c.(replies := Set(c.replies, replyId, MergeReply(reply, NoReplyChange.(deleted := Present(true)))));
          }
          next := next.(comments := Set(next.comments, id, c));
        }
    }
  }

  /** The `setFocusedComment` case of `Reduce`: unfocus the focused comment,
      then focus the target when it is a stored comment. */
  method ReduceFocus(s: CommentsState, target: Option<int>) returns (next: CommentsState)
    requires FocusValid(s)
    ensures next == Next(Present(s), SetFocusedComment(target))
  {
    next := s;
    if Truthy(next.focusedComment) {
      var f := next.focusedComment.value;
      next := next.(comments := Set(next.comments, f,
                      MergeComment(next.comments.entries[f], NoCommentChange.(isFocused := Present(false)))));
      next := next.(focusedComment := None);
    }
    if Truthy(target) && target.value in next.comments.entries {
      var t := target.value;
      next := next.(comments := Set(next.comments, t,
                      MergeComment(next.comments.entries[t], NoCommentChange.(isFocused := Present(true)))));
      next := next.(focusedComment := target);
    }
  }

  /** The `addReply` case of `Reduce`: count a remote reply, then store the
      reply in its comment. */
  method ReduceAddReply(s: CommentsState, id: int, reply: Reply) returns (next: CommentsState)
    requires FocusValid(s)
    ensures next == Next(Present(s), AddReply(id, reply))
  {
    next := s;
    if id in next.comments.entries {
      var c := next.comments.entries[id];
      if Truthy(reply.remoteId) {
        c := c.(remoteReplyCount := c.remoteReplyCount + 1);
      }
      next := next.(comments := Set(next.comments, id, c));
      c := c.(replies := Set(c.replies, reply.localId, reply));
      next := next.(comments := Set(next.comments, id, c));
    }
  }

  /** The state after dispatching `actions` in order. */
  function Run(s: CommentsState, actions: seq<Action>): (r: CommentsState)
    requires FocusValid(s)
    ensures FocusValid(r)
    decreases |actions|
  {
    if actions == [] then s else Run(Next(Present(s), actions[0]), actions[1..])
  }

  /** Dispatching two sequences one after the other is dispatching their
      concatenation. */
  lemma {:induction false} RunAppend(s: CommentsState, a: seq<Action>, b: seq<Action>)
    requires FocusValid(s)
    ensures Run(s, a + b) == Run(Run(s, a), b)
    decreases |a|
  {
    if a == [] {
      AppendToEmpty(a, b);
    } else {
      ConsTail(a, b);
      RunAppend(Next(Present(s), a[0]), a[1..], b);
    }
  }

  /** Dispatching a sequence is one reducer step, then the rest. */
  lemma RunCons(s: CommentsState, a: Action, rest: seq<Action>)
    requires FocusValid(s)
    ensures Run(s, [a] + rest) == Run(Next(Present(s), a), rest)
    ensures Run(s, [a]) == Next(Present(s), a)
  {
    assert ([a] + rest)[0] == a && ([a] + rest)[1..] == rest;
    assert [a][1..] == [];
  }

  /** Two dispatches are two reducer steps. */
  lemma RunPair(s: CommentsState, a: Action, b: Action)
    requires FocusValid(s)
    ensures Run(s, [a, b]) == Next(Present(Next(Present(s), a)), b)
  {
    assert [a, b][1..] == [b];
    RunCons(Next(Present(s), a), b, []);
  }

  /** One more dispatch is one more reducer step. */
  lemma RunSnoc(s: CommentsState, a: seq<Action>, last: Action)
    requires FocusValid(s)
    ensures Run(s, a + [last]) == Next(Present(Run(s, a)), last)
  {
    RunAppend(s, a, [last]);
    assert [last][1..] == [];
  }

  /** An undefined state is the empty state: no comments, nothing focused
      or pinned, no remote comments. */
  lemma UndefinedIsInitial(a: Action)
    ensures Next(Missing, a) == Next(Present(InitialState()), a)
    ensures InitialState().comments.keys == [] && InitialState().focusedComment.None?
    ensures InitialState().pinnedComment.None? && InitialState().remoteCommentCount == 0
  {
  }

  /** ADD_COMMENT stores the comment under its local id, replacing an entry
      in place or appending a new key, counts it when its remote id is
      truthy, and leaves everything else alone. */
  lemma AddCommentEffect(s: CommentsState, c: Comment)
    requires FocusValid(s)
    ensures var r := Next(Present(s), AddComment(c));
      && r.comments.entries == s.comments.entries[c.localId := c]
      && r.comments.keys == (if c.localId in s.comments.entries then s.comments.keys else s.comments.keys + [c.localId])
      && r.remoteCommentCount == s.remoteCommentCount + (if Truthy(c.remoteId) then 1 else 0)
      && r.focusedComment == s.focusedComment && r.pinnedComment == s.pinnedComment
  {
  }

  /** UPDATE_COMMENT is a no-op on an unknown id; on a known id it merges the
      update into that comment and changes nothing else, order included. */
  lemma UpdateCommentEffect(s: CommentsState, id: int, u: CommentUpdate)
    requires FocusValid(s)
    ensures var r := Next(Present(s), UpdateComment(id, u));
      && (id !in s.comments.entries ==> r == s)
      && (id in s.comments.entries ==>
            && r.comments.keys == s.comments.keys
            && r.comments.entries == s.comments.entries[id := MergeComment(s.comments.entries[id], u)]
            && r.focusedComment == s.focusedComment && r.pinnedComment == s.pinnedComment
            && r.remoteCommentCount == s.remoteCommentCount)
  {
  }

  /** DELETE_COMMENT is a no-op on an unknown id. A comment whose remote id
      is falsy leaves the map; one with a remote id stays, marked deleted.
      Focus is cleared only if it was on that comment; pin and count stay. */
  lemma DeleteCommentEffect(s: CommentsState, id: int)
    requires FocusValid(s)
    ensures var r := Next(Present(s), DeleteComment(id));
      && (id !in s.comments.entries ==> r == s)
      && (id in s.comments.entries ==>
            var c := s.comments.entries[id];
            && (!Truthy(c.remoteId) ==> r.comments.entries == s.comments.entries - {id}
                                        && r.comments.keys == RemoveKey(s.comments.keys, id))
            && (Truthy(c.remoteId) ==> r.comments.entries == s.comments.entries[id := c.(deleted := true)]
                                       && r.comments.keys == s.comments.keys)
            && r.focusedComment == (if s.focusedComment == Some(id) then None else s.focusedComment)
            && r.pinnedComment == s.pinnedComment
            && r.remoteCommentCount == s.remoteCommentCount)
  {
  }

  /** SET_FOCUSED_COMMENT clears the previous comment's flag, then focuses
      the target exactly when it is truthy and present; it touches no other
      comment and no other field, and keeps the flags in step with
      `focusedComment`. */
  lemma SetFocusedEffect(s: CommentsState, target: Option<int>)
    requires FocusValid(s)
    ensures var r := Next(Present(s), SetFocusedComment(target));
      && r.comments.keys == s.comments.keys
      && (Truthy(target) && target.value in s.comments.entries ==>
            r.focusedComment == target && r.comments.entries[target.value].isFocused)
      && (!(Truthy(target) && target.value in s.comments.entries) ==> r.focusedComment.None?)
      && (forall k :: k in s.comments.entries && Some(k) != target && Some(k) != s.focusedComment ==>
            r.comments.entries[k] == s.comments.entries[k])
      && (FocusSync(s) ==> FocusSync(r))
      && r.pinnedComment == s.pinnedComment && r.remoteCommentCount == s.remoteCommentCount
    ensures var r := Next(Present(s), SetFocusedComment(target));
      var m := s.comments.entries;
      var cleared := if s.focusedComment.None? then m
                     else m[s.focusedComment.value := m[s.focusedComment.value].(isFocused := false)];
      && (Truthy(target) && target.value in m ==>
            r.comments.entries == cleared[target.value := cleared[target.value].(isFocused := true)])
      && (!(Truthy(target) && target.value in m) ==> r.comments.entries == cleared)
  {
    var r := Next(Present(s), SetFocusedComment(target));
    if FocusSync(s) {
      forall k | k in r.comments.entries
        ensures r.comments.entries[k].isFocused <==> r.focusedComment == Some(k)
      {
        assert k in s.comments.entries;
      }
    }
  }

  /** SET_PINNED_COMMENT stores its id, `null` or absent ones included, and
      changes nothing else. */
  lemma SetPinnedEffect(s: CommentsState, p: Option<int>)
    requires FocusValid(s)
    ensures var r := Next(Present(s), SetPinnedComment(p));
      r.pinnedComment == p && r == s.(pinnedComment := p)
  {
  }

  /** Deleting the focused comment when it has a remote id clears
      `focusedComment` but leaves the comment's own `isFocused` flag set:
      the flags fall out of step with `focusedComment`. */
  lemma DeleteFocusedRemoteKeepsFlag(s: CommentsState, id: int)
    requires FocusValid(s) && FocusSync(s)
    requires s.focusedComment == Some(id) && Truthy(s.comments.entries[id].remoteId)
    ensures var r := Next(Present(s), DeleteComment(id));
      r.focusedComment.None? && r.comments.entries[id].isFocused && !FocusSync(r)
  {
  }

  /** ADD_REPLY is a no-op on an unknown comment. On a known one it stores
      the reply under its local id (in place, or at the end of the reply
      order) and counts it when its remote id is truthy; nothing outside
      that comment's replies and count changes. */
  lemma AddReplyEffect(s: CommentsState, id: int, reply: Reply)
    requires FocusValid(s)
    ensures id !in s.comments.entries ==> Next(Present(s), AddReply(id, reply)) == s
    ensures id in s.comments.entries ==>
      var c := s.comments.entries[id];
      var r := Next(Present(s), AddReply(id, reply));
      && r.comments.keys == s.comments.keys
      && r.comments.entries == s.comments.entries[id := r.comments.entries[id]]
      && r.comments.entries[id].replies.entries == c.replies.entries[reply.localId := reply]
      && r.comments.entries[id].remoteReplyCount == c.remoteReplyCount + (if Truthy(reply.remoteId) then 1 else 0)
      && r.comments.entries[id].replies.keys
         == (if reply.localId in c.replies.entries then c.replies.keys else c.replies.keys + [reply.localId])
      && r.comments.entries[id] == c.(replies := r.comments.entries[id].replies,
                                      remoteReplyCount := r.comments.entries[id].remoteReplyCount)
      && r.focusedComment == s.focusedComment && r.pinnedComment == s.pinnedComment
      && r.remoteCommentCount == s.remoteCommentCount
  {
  }

  /** UPDATE_REPLY is a no-op on an unknown comment or reply; otherwise it
      merges the update into that reply and changes nothing else. */
  lemma UpdateReplyEffect(s: CommentsState, id: int, replyId: int, u: ReplyUpdate)
    requires FocusValid(s)
    ensures id !in s.comments.entries || replyId !in s.comments.entries[id].replies.entries ==>
      Next(Present(s), UpdateReply(id, replyId, u)) == s
    ensures id in s.comments.entries && replyId in s.comments.entries[id].replies.entries ==>
      var c := s.comments.entries[id];
      var updated := Next(Present(s), UpdateReply(id, replyId, u));
      && updated.comments.keys == s.comments.keys
      && updated.comments.entries
         == s.comments.entries[id := c.(replies := Set(c.replies, replyId, MergeReply(c.replies.entries[replyId], u)))]
      && updated.comments.entries[id].replies.keys == c.replies.keys
      && updated.focusedComment == s.focusedComment && updated.pinnedComment == s.pinnedComment
      && updated.remoteCommentCount == s.remoteCommentCount
  {
  }

  /** DELETE_REPLY is a no-op on an unknown comment or reply; otherwise it
      drops a reply without a truthy remote id and marks one with a truthy
      remote id deleted, and changes nothing else. */
  lemma DeleteReplyEffect(s: CommentsState, id: int, replyId: int)
    requires FocusValid(s)
    ensures id !in s.comments.entries || replyId !in s.comments.entries[id].replies.entries ==>
      Next(Present(s), DeleteReply(id, replyId)) == s
    ensures id in s.comments.entries && replyId in s.comments.entries[id].replies.entries ==>
      var c := s.comments.entries[id];
      var old_ := c.replies.entries[replyId];
      var deleted := Next(Present(s), DeleteReply(id, replyId));
      && deleted.comments.keys == s.comments.keys
      && (!Truthy(old_.remoteId) ==>
            && deleted.comments.entries[id].replies.entries == c.replies.entries - {replyId}
            && deleted.comments.entries[id].replies.keys == RemoveKey(c.replies.keys, replyId))
      && (Truthy(old_.remoteId) ==>
            && deleted.comments.entries[id].replies.entries == c.replies.entries[replyId := old_.(deleted := true)]
            && deleted.comments.entries[id].replies.keys == c.replies.keys)
      && deleted.comments.entries == s.comments.entries[id := deleted.comments.entries[id]]
      && deleted.comments.entries[id] == c.(replies := deleted.comments.entries[id].replies)
      && deleted.focusedComment == s.focusedComment && deleted.pinnedComment == s.pinnedComment
      && deleted.remoteCommentCount == s.remoteCommentCount
  {
  }

  /** The remote ids of the comments that a sequence of actions adds. */
  function AddedRemoteIds(actions: seq<Action>): (ids: seq<Option<int>>)
    ensures |ids| <= |actions|
  {
    if actions == [] then []
    else (if actions[0].AddComment? then [actions[0].comment.remoteId] else []) + AddedRemoteIds(actions[1..])
  }

  /** `remoteCommentCount` counts exactly the added comments whose remote id
      is truthy; nothing but ADD_COMMENT moves it. */
  lemma {:induction false} RemoteCountCountsAdds(s: CommentsState, actions: seq<Action>)
    requires FocusValid(s)
    ensures Run(s, actions).remoteCommentCount == s.remoteCommentCount + CountTruthy(AddedRemoteIds(actions))
    decreases |actions|
  {
    if actions != [] {
      var head := if actions[0].AddComment? then [actions[0].comment.remoteId] else [];
      var rest := AddedRemoteIds(actions[1..]);
      RemoteCountCountsAdds(Next(Present(s), actions[0]), actions[1..]);
      if actions[0].AddComment? {
        assert (head + rest)[1..] == rest;
      } else {
        assert head + rest == rest;
      }
    }
  }
}
