# Comments store of the in-page commenting widget

This project models the state layer of a commenting widget for a CMS editor.
Editors attach comments to positions in a document, and reply to them.

The widget's comments live in a Redux-style store with two slices:
- a `comments` slice: an insertion-ordered `Map` of comments, each with its own ordered `Map` of replies, plus the focused comment, the pinned comment and a count of remote comments;
- a `settings` slice: the current user, whether comments are enabled, and whether resolved comments are shown.

Eight actions change the comments slice. The model covers:
- the reducer;
- the components' event handlers, each as the sequence of actions it dispatches;
- which comments the application renders;
- the initial load, which turns the server's comments into actions;
- the creation of a new comment;
- the Django formset of hidden inputs that carries everything back to the server.

Modules, one per source file of the core:

| module | file | form |
|---|---|---|
| `Js`, `OrderedMaps` | (JavaScript values, `Map`) | values |
| `CommentTypes` | `src/state/comments.ts` (types, constructors) | values |
| `StateUtils` | `src/state/utils.ts` | values |
| `CommentActions` | `src/actions/comments.ts` | values |
| `CommentsReducer` | `src/state/comments.ts` (reducer) | function `Next`, imperative `Reduce` proved equal to it |
| `Settings` | `src/state/settings.ts` | values |
| `Selectors` | `src/selectors/index.ts` | values |
| `AppStore` | the Redux store created in `src/main.tsx` | class `Store`, whose fields change on dispatch |
| `App` | `src/main.tsx` | loops as methods over a `Store`, effects as lemmas |
| `CommentComponent`, `CommentReplyComponent` | `src/components/Comment`, `src/components/CommentReply` | handlers as action sequences |
| `Form` | `src/components/Form/index.tsx` | values |
| `CommentsFixtures` | `src/state/comments.test.ts` | the unit tests as lemmas |

How JavaScript values are represented:
- `undefined`, meaning a missing property, is `Slot.Missing`.
- `null` is `Option.None`.
- Truthiness is written out: `0` and `null` are falsy.
- A `Map` is `OrderedMaps.OMap`: a key sequence in insertion order plus a finite map. `Set` keeps the position of a key that is already present; `Delete` drops the key from the order.

The store keeps a ghost log of the dispatched comment actions. Its invariant is that the comments slice equals `Run(InitialState(), log)`, the reducer folded over the log. Every statement about a handler or a load is therefore a statement about `Run` over the actions it dispatches.

## Model

| member | source | states |
|---|---|---|
| CommentTypes.UpdateLaws | src/state/comments.ts:148-150 | `update` with an empty partial record returns the record unchanged; applying the same partial update twice equals applying it once (comments and replies) |
| StateUtils.Merge | src/state/utils.ts:1-3 | a merged field comes from the partial record when it has the field, from the base otherwise |
| StateUtils.MergeSlot | src/state/utils.ts:1-3 | the same for a field the base record may lack: the partial record's field wins, otherwise the base's (possibly absent) field stays |
| StateUtils.MergeLaws | src/state/utils.ts:1-3 | merging an absent field is the identity; merging is idempotent |
| StateUtils.MergeSlotLaws | src/state/utils.ts:1-3 | the same two laws for fields that may be absent |
| CommentTypes.CountNonNull | src/state/comments.ts:126 | the count of non-`null` ids is at most the length; it equals the length iff every id is non-null, and is 0 iff every id is null |
| CommentTypes.CountTruthy | src/state/comments.ts:174 | the count of truthy ids is at most the non-null count, and equals it iff no id is `0` |
| CommentTypes.ReplyRemoteIds | src/state/comments.ts:126 | position by position, the remote ids of the replies |
| CommentTypes.NewCommentReply | src/state/comments.ts:40-60 | a new reply holds the given id, author, date, remote id, mode and text; it is not deleted, its previous text is empty and it has no draft |
| CommentTypes.NewCommentAsWritten | src/state/comments.ts:99-128 | as written, `newComment` counts the non-null remote ids of its replies (0 ≤ count ≤ number of replies), starts undeleted, unfocused, with empty draft reply and previous text, and has no `resolvedAt` property |
| CommentTypes.NewComment | src/state/comments.ts:99-128 | `newComment` with the `resolvedAt` option its caller passes: every given field stored, the reply count as above, and `resolvedAt` present with the given value |
| CommentActions.TypeIdentifiesVariant | src/actions/comments.ts:8-16 | the eight type tags are pairwise distinct: two actions share a tag iff they are the same variant |
| CommentsReducer.InitialState | src/state/comments.ts:139-146 | no comments, nothing focused or pinned, remote count 0 |
| CommentsReducer.Next | src/state/comments.ts:162-330 | the reducer keeps the invariant that the focused comment, when set, is a truthy id present in the map |
| CommentsReducer.Reduce | src/state/comments.ts:162-330 | the imperative reducer (start from the initial state when undefined, then change the copy step by step) returns exactly `Next` |
| CommentsReducer.ReduceFocus | src/state/comments.ts:213-240 | the `SET_FOCUSED_COMMENT` branch of the imperative reducer equals `Next` on that action |
| CommentsReducer.ReduceAddReply | src/state/comments.ts:248-264 | the `ADD_REPLY` branch of the imperative reducer equals `Next` on that action |
| CommentsReducer.Run | src/state/comments.ts:162-330 | folding the reducer over any action sequence keeps the focus invariant |
| CommentsReducer.RunAppend | src/state/comments.ts:162-330 | dispatching `a` then `b` equals dispatching `a + b` |
| CommentsReducer.RunCons | src/state/comments.ts:162-330 | dispatching a sequence is one reducer step followed by the rest |
| CommentsReducer.RunPair | src/state/comments.ts:162-330 | dispatching two actions is two reducer steps |
| CommentsReducer.RunSnoc | src/state/comments.ts:162-330 | one more dispatch is one more reducer step on the result |
| CommentsReducer.UndefinedIsInitial | src/state/comments.ts:166-168 | an undefined state reduces like the initial state, which is empty, unfocused, unpinned and has count 0 |
| CommentsReducer.AddCommentEffect | src/state/comments.ts:171-177 | the comment is stored under its local id, in place when present and at the end of the order when new; the count grows by one iff its remote id is truthy; focus and pin stay |
| CommentsReducer.UpdateCommentEffect | src/state/comments.ts:179-189 | unknown id: nothing changes; known id: that comment becomes the merge and nothing else changes, order included |
| CommentsReducer.DeleteCommentEffect | src/state/comments.ts:191-211 | unknown id: nothing changes; falsy remote id: the entry goes, from the map and the order; truthy remote id: it stays, flagged deleted, order kept; focus cleared iff it was on that comment; pin and count kept |
| CommentsReducer.SetFocusedEffect | src/state/comments.ts:213-240 | focus moves to the target iff it is truthy and present, otherwise it becomes `null`; the whole new map is the old one with the previous focus's flag cleared and, when focus moves, the target's flag set (its other fields kept); order, pin and count are unchanged; flags in step with `focusedComment` stay in step |
| CommentsReducer.SetPinnedEffect | src/state/comments.ts:242-246 | the pin becomes the given id (`null` included) and nothing else changes |
| CommentsReducer.DeleteFocusedRemoteKeepsFlag | src/state/comments.ts:191-211 | deleting the focused comment when it has a remote id clears `focusedComment` but leaves that comment's `isFocused` set, so the flags fall out of step |
| CommentsReducer.AddReplyEffect | src/state/comments.ts:248-264 | unknown comment: nothing changes; otherwise the reply is stored under its local id, at the end of the reply order when the id is new and in its old place otherwise; the comment's reply count grows iff the reply's remote id is truthy; nothing else changes, including focus, pin and the remote comment count |
| CommentsReducer.UpdateReplyEffect | src/state/comments.ts:266-293 | unknown comment or reply: nothing changes; otherwise only that reply is merged, the reply order is kept, and focus, pin and the remote comment count are unchanged |
| CommentsReducer.DeleteReplyEffect | src/state/comments.ts:295-326 | unknown comment or reply: nothing changes; falsy remote id: the reply goes, from the map and the reply order; truthy: it stays in its place, flagged deleted; nothing else changes, including focus, pin and the remote comment count |
| CommentsReducer.AddedRemoteIds | src/state/comments.ts:171-177 | there is at most one added remote id per action |
| CommentsReducer.RemoteCountCountsAdds | src/state/comments.ts:171-177 | over any action sequence, `remoteCommentCount` grows by exactly the number of added comments whose remote id is truthy |
| CommentsFixtures.BasicCommentsState | src/state/comments.test.ts:14-76 | the fixture holds comments 1 and 4 in that order, focused and pinned on 1 |
| CommentsFixtures.InitialStateTest | src/state/comments.test.ts:7-12 | the initial state has no comments, focus or pin |
| CommentsFixtures.AddCommentTest | src/state/comments.test.ts:78-96 | adding comment 5 stores it |
| CommentsFixtures.UpdateCommentTest | src/state/comments.test.ts:98-105 | the update of comment 1's mode is stored |
| CommentsFixtures.DeleteCommentTests | src/state/comments.test.ts:107-121 | the local comment 4 is removed; the remote comment 1 stays, flagged deleted |
| CommentsFixtures.FocusTest | src/state/comments.test.ts:123-127 | focusing comment 4 makes it the focused comment |
| CommentsFixtures.AddReplyTest | src/state/comments.test.ts:129-145 | the added reply 10 is stored in comment 1 |
| CommentsFixtures.UpdateReplyTest | src/state/comments.test.ts:146-154 | the update of reply 2's mode is stored |
| CommentsFixtures.DeleteReplyTests | src/state/comments.test.ts:155-168 | the local reply 3 is removed; the remote reply 2 stays, flagged deleted |
| Settings.InitialState | src/state/settings.ts:13-19 | no user, comments enabled, resolved comments hidden |
| Settings.MergeSettings | src/state/settings.ts:31-33 | a defined state takes each field from the update when the update has it; an undefined state becomes the update itself |
| Settings.Reducer | src/state/settings.ts:21-40 | another slice's action leaves the state (undefined reads as initial); a global update merges; a complete state stays complete |
| Settings.UndefinedUpdateKeepsOnlyTheUpdate | src/state/settings.ts:31-33 | an update on an undefined state yields the update alone, so a partial update leaves fields missing instead of taking the defaults |
| Settings.UpdateLaws | src/state/settings.ts:21-40 | a global update is idempotent, and an update with no fields leaves a defined state unchanged |
| Selectors.Name | src/selectors/index.ts:10 | the two spellings of the property, `contentpath` and `contentPath`, differ only in the case of their eighth letter |
| Selectors.Property | src/state/comments.ts:75-90 | a comment carries its content path under `contentpath`; the spelling `contentPath` reads `undefined`, because a comment has no property of that name |
| Selectors.FilterByProperty | src/selectors/index.ts:10 | for either spelling, the filter keeps exactly the comments whose property under that spelling equals the path |
| Selectors.FilterAppend | src/selectors/index.ts:10 | the filter keeps input order: filtering a concatenation concatenates the filtered parts |
| Selectors.SelectCommentsForContentPath | src/selectors/index.ts:7-12 | the corrected selector returns only comments with the path, every stored comment with the path, and only stored comments |
| Selectors.SelectAsWritten | src/selectors/index.ts:7-12 | the selector as written returns only stored comments whose `contentPath` property equals the path |
| Selectors.AsWrittenSelectsNothing | src/selectors/index.ts:10 | as written, the selector returns the empty list for every map and every path |
| Selectors.AbsentPropertySelectsNothing | src/selectors/index.ts:10 | filtering on the spelling `contentPath`, which comments lack, selects nothing |
| Selectors.SelectorTest | src/selectors/selectors.test.ts:6-20 | on the two-path fixture the corrected selector returns exactly comment 1, and exactly comment 4, while the as-written one returns nothing |
| Selectors.BasicValues | src/state/comments.test.ts:14-76 | the fixture's values iterate as comment 1, then comment 4 |
| OrderedMaps.Empty | src/state/comments.ts:139-146 | the empty map has no keys and no entries |
| OrderedMaps.Set | src/state/comments.ts:171-177 | `Map.set`: the entry is stored; a present key keeps its place, a new one is appended |
| OrderedMaps.RemoveKey | src/state/comments.ts:191-211 | the order without the key: the other keys kept, distinctness kept |
| OrderedMaps.Delete | src/state/comments.ts:191-211 | `Map.delete`: the entry is removed, and the key is removed from the order |
| OrderedMaps.Values | src/selectors/index.ts:10 | `[...m.values()]`: one value per key, in key order |
| OrderedMaps.ValuesCover | src/selectors/index.ts:10 | every stored value occurs among the iterated values |
| OrderedMaps.UpdateTwice | src/state/comments.ts:148-150 | a second write to the same key overrides the first |
| Form.Digit | src/components/Form/index.tsx:71-91 | a digit character denotes its value |
| Form.DecimalString | src/components/Form/index.tsx:71-91 | a form number is written as digits without leading zeros |
| Form.ParseDecimalString | src/components/Form/index.tsx:71-91 | reading the digits of a form number back gives the number |
| Form.FormPrefixesDistinct | src/components/Form/index.tsx:141-170 | different form numbers give different `comments-N` prefixes |
| Form.HiddenInput | src/components/Form/index.tsx:56-63 | the input is named `prefix-fieldName`, so its name starts with `prefix-`; it has id `id_` + name and holds the value |
| Form.ManagementForm | src/components/Form/index.tsx:13-48 | the management form is `TOTAL_FORMS`, `INITIAL_FORMS`, `MIN_NUM_FORMS` = `"0"` and `MAX_NUM_FORMS` = `""`, in that order; every input name starts with `prefix-` |
| Form.DeleteValue | src/components/Form/index.tsx:77 | `DELETE` is `1` iff the item is deleted, and the empty string iff it is not |
| Form.IdValue | src/components/Form/index.tsx:71-91 | `id` is `null` iff there is no remote id, and the remote id otherwise |
| Form.ReplyForm | src/components/Form/index.tsx:71-91 | a reply form is `DELETE`, `id`, `text` under `prefix-N`; every input name starts with `prefix-` |
| Form.ReplyForms | src/components/Form/index.tsx:98-134 | the reply forms number the replies consecutively, three inputs each |
| Form.ReplyFormsNames | src/components/Form/index.tsx:98-134 | every input name of the reply forms starts with `prefix-` |
| Form.ReplyFormSet | src/components/Form/index.tsx:98-134 | management form of `prefix-replies` (total = replies, initial = replies with a remote id, initial ≤ total), then reply `m` as form `m` |
| Form.ReplyFormSetNames | src/components/Form/index.tsx:98-134 | every input name of the reply formset of a comment form starts with that form's prefix and a dash |
| Form.CommentForm | src/components/Form/index.tsx:141-170 | `DELETE`, `id`, `contentpath`, `text`, then the reply formset over the replies in map order |
| Form.CommentFields | src/components/Form/index.tsx:141-170 | every name of the comment's own four inputs starts with the form's prefix and a dash |
| Form.CommentFormNames | src/components/Form/index.tsx:141-170 | every input name of comment form `N` starts with `comments-N-` |
| Form.CommentFormNamesDistinct | src/components/Form/index.tsx:13-48 | two comment forms with different form numbers share no input name |
| Form.SameFormNumber | src/components/Form/index.tsx:141-170 | a name that starts with both `comments-a-` and `comments-b-` has `a` = `b` |
| Form.DashEndsDigits | src/components/Form/index.tsx:141-170 | in a name starting with `comments-a-`, the digits of `a` follow `comments-` and no number with more digits can be read at the same place |
| Form.ConcatAppend | src/components/Form/index.tsx:13-48 | the inputs of consecutive forms concatenate |
| Form.CommentForms | src/components/Form/index.tsx:13-48 | comment `n` of the list renders as form number `n` |
| Form.CommentFormSet | src/components/Form/index.tsx:13-48 | management form of `comments` (total = comments, initial = comments with a remote id, initial ≤ total), then the comment forms in list order |
| Form.CommentFormAt | src/components/Form/index.tsx:13-48 | comment `n`'s form sits between the forms of the comments before it and those after it |
| Form.ConcatAt | src/components/Form/index.tsx:13-48 | form `n`'s inputs sit between those of the forms before and after it |
| AppStore.Store.constructor | src/main.tsx:142-146 | the store starts with an empty comments slice and the preloaded settings |
| AppStore.Store.Dispatch | src/main.tsx:247-264 | a comment action takes the comments slice one reducer step and leaves the settings |
| AppStore.Store.DispatchAll | src/main.tsx:242-297 | dispatching a sequence folds the reducer over it and leaves the settings |
| AppStore.Store.UpdateGlobalSettings | src/state/settings.ts:31-33 | a global update merges into the settings and leaves the comments slice |
| App.Unhidden | src/main.tsx:101-107 | a comment is kept iff it is in the input and not hidden (`Hidden`: `resolvedAt !== null` and not resolved this session) |
| App.UnhiddenAppend | src/main.tsx:101-107 | the hiding filter keeps order |
| App.CommentsToRender | src/main.tsx:97-108 | nothing while comments are disabled or there is no user; everything when resolved comments are shown; otherwise exactly the comments not hidden |
| App.RenderKeepsOrder | src/main.tsx:97-108 | rendering a concatenation renders the parts one after the other |
| App.AsWrittenHidesNewComments | src/state/comments.ts:99-128 | with resolved comments hidden, any comment built by `newComment` as written is hidden and is not rendered |
| App.StoredResolvedAtDecidesVisibility | src/main.tsx:101-107 | with `resolvedAt` stored, an unresolved comment is rendered; a resolved one is hidden until it is resolved in this session |
| App.CommentIds | src/main.tsx:244 | position by position, the local comment ids |
| App.ServerIds | src/main.tsx:250-258 | position by position, the server ids as remote ids |
| App.StartSettings | src/main.tsx:142-146 | the store starts with the author as user, comments enabled and resolved comments hidden |
| App.ResolvedAt | src/main.tsx:257-259 | `resolvedAt` is `null` iff `resolved_at` is `null` or empty, and the parsed time otherwise |
| App.LoadedReply | src/main.tsx:267-279 | a server reply becomes a reply with its server id, author, text and date, in mode default |
| App.LoadedReplies | src/main.tsx:267-279 | reply `j` is loaded under local id `j` |
| App.LoadedComment | src/main.tsx:247-264 | a server comment becomes a comment with its server id, text, content path, author, date and resolved time (with the corrected `newComment`), with no replies yet |
| App.RequestedActions | src/main.tsx:283-296 | nothing unless the comment is the requested one; otherwise focus, pin, then `resolvedThisSession` iff `resolved_at !== null` |
| App.BlockActions | src/main.tsx:247-264 | one server comment's actions begin with adding it |
| App.LoadActionsSnoc | src/main.tsx:242-297 | loading one more server comment appends its actions |
| App.LoadActionsUnfold | src/main.tsx:242-297 | the load is the first comment's actions followed by the load of the rest |
| App.LoadActionsStep | src/main.tsx:242-297 | the load of the first `i+1` comments is the load of the first `i` plus comment `i`'s actions |
| App.LoadReplies | src/main.tsx:267-279 | the inner loop dispatches the replies' additions in order |
| App.ShowRequested | src/main.tsx:283-296 | the tail of the loop body dispatches exactly the requested-comment actions |
| App.LoadComment | src/main.tsx:242-297 | one loop iteration dispatches exactly the comment's actions |
| App.InitCommentsApp | src/main.tsx:135-297 | the store starts with the start settings and then holds exactly the load's actions; its comments are the reducer's fold over them |
| App.AddAllKeys | src/state/comments.ts:248-264 | adding replies with distinct fresh ids appends their ids in order |
| App.AddAllEntries | src/state/comments.ts:248-264 | each added reply is stored under its id; other replies are kept |
| App.WithComment | src/state/comments.ts:179-189 | replacing a present comment changes only that entry |
| App.WithCommentTwice | src/state/comments.ts:179-189 | the second replacement overrides the first |
| App.WithRepliesCons | src/state/comments.ts:248-264 | adding replies is adding the first and then the rest |
| App.CountRepliesCons | src/state/comments.ts:248-264 | the truthy remote ids of the replies are those of the first plus those of the rest |
| App.AddReplyStep | src/state/comments.ts:248-264 | `ADD_REPLY` on a present comment replaces it with the comment plus the reply |
| App.RunAddReplies | src/main.tsx:267-279 | dispatching the replies' additions stores them one after the other and counts the truthy remote ids |
| App.FocusAndPinEffect | src/main.tsx:287-288 | focus and pin (`FocusAndPin`) a present comment: it becomes focused (if its id is truthy) and pinned, all others lose their flag, and the flags stay in step |
| App.LoadedFields | src/main.tsx:247-296 | a loaded comment has its server id, text, author, content path and mode default; with the corrected `newComment`, `resolvedAt` is `null` iff `resolved_at` is `null` or empty; its replies are in order with their server ids and texts; `resolvedThisSession` is set iff it is requested and `resolved_at !== null` |
| App.LoadedRepliesStored | src/main.tsx:267-279 | the loaded replies are stored in order under their local ids, with their server ids and texts |
| App.AddBlockEffect | src/main.tsx:247-279 | adding a server comment and its replies appends it to the order in its loaded form; everything else is kept |
| App.LoadedWithReplies | src/main.tsx:247-279 | the loaded form is the added comment with its replies stored |
| App.ResolveEffect | src/main.tsx:291-295 | marking resolved in this session changes only that flag |
| App.WithCommentKeepsSync | src/state/comments.ts:179-189 | replacing a comment with one that has the same focus flag keeps the flags in step |
| App.FocusRequestedEffect | src/main.tsx:283-296 | for the requested comment: it is focused and pinned, others lose their flag, and it is marked resolved this session iff `resolved_at !== null` |
| App.RequestedEffect | src/main.tsx:283-296 | the requested-comment actions, whether or not the comment is requested |
| App.BlockEffect | src/main.tsx:242-297 | one server comment joins the end of the order in its loaded form; focus and pin move to it iff it is requested; the count grows iff its server id is truthy; the flags stay in step |
| App.LastRequested | src/main.tsx:283-296 | the last requested comment of the list, present iff some comment is requested |
| App.LoadCons | src/main.tsx:242-297 | the load of a non-empty list is the first block and then the load of the rest |
| App.LoadTailFresh | src/main.tsx:244 | after the first comment, the remaining local ids are still distinct and fresh |
| App.LoadOrder | src/main.tsx:242-297 | after the load, the new comments follow the old ones in load order, and the count grows by the truthy server ids |
| App.BlockOrder | src/main.tsx:242-297 | the order and count after one server comment |
| App.CountServerIdsCons | src/main.tsx:250-258 | the truthy server ids of a list are those of the first plus those of the rest |
| App.LoadFocus | src/main.tsx:283-296 | after the load, focus and pin are on the last requested comment, or unchanged if none is requested; the flags stay in step |
| App.LoadKeeps | src/main.tsx:242-297 | comments already stored keep everything but their focus flag |
| App.LoadHolds | src/main.tsx:242-297 | every server comment ends in its loaded form (with the corrected `newComment`), up to its focus flag |
| App.LoadEffect | src/main.tsx:242-297 | the whole load (`LoadActions`, with the corrected `newComment`) from any state without its fresh ids: order, loaded comments, kept comments, count, focus, pin and flags |
| App.InitialLoad | src/main.tsx:242-297 | from the empty store: keys are the local ids in load order, and the count is the number of truthy server ids |
| App.InitialLoadFocus | src/main.tsx:283-296 | from the empty store: pin on the last requested comment (or `null`), focus likewise when its id is truthy |
| App.MakeCommentActions | src/main.tsx:312-330 | three actions: add a comment in mode `creating` authored by the user, then focus and pin it |
| App.MakeComment | src/main.tsx:312-330 | the store receives exactly those three actions and keeps its settings |
| App.MakeCommentEffect | src/main.tsx:312-330 | the new comment joins the end of the order in mode creating, on its annotation, by the user, with no remote id and (with the corrected `newComment`) `resolvedAt` `null`; it is focused (if its id is truthy) and pinned; from any state, the previously focused comment loses its flag and every other old comment is unchanged; the count is kept |
| App.MakeCommentKeepsSync | src/main.tsx:312-330 | when the flags were in step before, every old comment ends unflagged and the flags stay in step |
| CommentComponent.ViewFor | src/components/Comment/index.tsx:613-646 | each mode selects its view; `default`, `deleted` and any other mode select the default view |
| CommentComponent.DefaultButtons | src/components/Comment/index.tsx:566-585 | Resolve is always offered; Edit and Delete iff the user is the author or there is no author |
| CommentComponent.ReplyBeingEditedMeansSome | src/components/Comment/index.tsx:181-200 | a reply is being edited iff some reply is in mode `saving` or `editing` |
| CommentComponent.ListedReplies | src/components/Comment/index.tsx:181-200 | exactly the replies not flagged deleted are listed |
| CommentComponent.RenderReplies | src/components/Comment/index.tsx:135-249 | nothing iff the comment has no truthy remote id; otherwise the undeleted replies in order; a reply box iff not hidden, no reply is being edited, and the comment is focused or has a draft; buttons iff the box shows and the draft is non-empty |
| CommentComponent.Updates | src/components/Comment/index.tsx:51-77 | one `UPDATE_COMMENT` per update, in order |
| CommentComponent.RunUpdates | src/components/Comment/index.tsx:51-77 | dispatching updates of a present comment merges them into it in order and changes nothing else |
| CommentComponent.WarningUpdates | src/components/Comment/index.tsx:20-49 | no warning is dispatched iff it is not forced and the comment has no remote id |
| CommentComponent.SaveCommentActions | src/components/Comment/index.tsx:51-77 | saving dispatches only updates of that comment |
| CommentComponent.SaveUpdates | src/components/Comment/index.tsx:51-77 | the save actions are exactly the updates of the comment |
| CommentComponent.SavedComment | src/components/Comment/index.tsx:51-77 | the saved comment is in mode default, with the draft as text, the rendered remote id, author and date, and the warning cleared when one was shown |
| CommentComponent.SaveCommentEffect | src/components/Comment/index.tsx:51-77 | saving changes only that comment, to its saved form |
| CommentComponent.DeleteCommentActions | src/components/Comment/index.tsx:79-101 | deleting starts with mode `deleting` and ends with the deletion; with no remote id, nothing in between |
| CommentComponent.SendReplyActions | src/components/Comment/index.tsx:153-169 | add a reply with no remote id, in mode default, with the draft as text, under the fresh id; then empty the draft |
| CommentComponent.EditEffect | src/components/Comment/index.tsx:539-548 | Edit (`EditActions`) puts the comment in mode `editing` with its text as draft; the whole new state is the old one with only that comment replaced (order, other comments, focus, pin and count unchanged) |
| CommentComponent.EditThenSave | src/components/Comment/index.tsx:317-331 | edit then save keeps the text; edit, type `value` (`ChangeTextActions`), save stores `value`; both end in mode default |
| CommentComponent.EditThenCancel | src/components/Comment/index.tsx:333-342 | edit then cancel (`CancelEditActions`) is back to default with the text untouched and the draft reset to it; the whole state is otherwise the old one |
| CommentComponent.RunOneUpdate | src/components/Comment/index.tsx:51-77 | one update merges into that comment only |
| CommentComponent.DeleteConfirmThenCancel | src/components/Comment/index.tsx:424-441 | delete (`DeleteConfirmActions`, src/components/Comment/index.tsx:550-557) asks for confirmation; cancel (`CancelDeleteActions`) returns to default; after each step the whole state is the old one with only that comment's mode changed |
| CommentComponent.DeletingUpdatesEffect | src/components/Comment/index.tsx:79-101 | before the deletion: mode `deleting`, and the warning shown and cleared iff there is a remote id |
| CommentComponent.DeleteCommentHandlerEffect | src/components/Comment/index.tsx:79-101 | a comment without a truthy remote id leaves the map and the order; one with it stays in its place in mode deleting, flagged deleted; focus on it is dropped; pin and the remote comment count kept |
| CommentComponent.SendReplyEffect | src/components/Comment/index.tsx:153-169 | the intended `sendReply`: the whole new state is the old one with comment `id` replaced by itself with the new reply (no remote id, mode default, the draft as text) set under the fresh id, at the end of the reply order when the id is new, and the draft emptied; order, other comments, focus, pin and counts are unchanged |
| CommentComponent.SendReplyAsWrittenActions | src/components/Comment/index.tsx:153-162 | as written, only the first of the intended actions is dispatched before the helper call throws |
| CommentComponent.SendReplyAsWrittenKeepsDraft | src/components/Comment/index.tsx:153-162 | as written, the same reply is stored as in the intended sequence, but the draft reply keeps its text: a non-empty draft is not emptied |
| CommentComponent.ClickFocuses | src/components/Comment/index.tsx:649-651 | a click (`ClickActions`) clears the previous focus's flag and, when the id is truthy, focuses the comment and sets its flag (other fields kept); every other comment, the order, pin and count are unchanged |
| CommentComponent.DoubleClickPins | src/components/Comment/index.tsx:653-655 | a double click (`DoubleClickActions`) pins the comment and changes nothing else |
| CommentComponent.CancelCreateEffect | src/components/Comment/index.tsx:271-279 | cancel while creating (`CancelCreateActions`) removes the comment from the map, the order and focus; the pin and the remote comment count stay |
| CommentComponent.NewReplyDraftEffect | src/components/Comment/index.tsx:143-178 | typing a reply (`ChangeNewReplyActions`) stores the draft; cancelling (`CancelReplyActions`) empties it; nothing else changes |
| CommentComponent.WithNewReply | src/components/Comment/index.tsx:143-151 | only the comment's draft reply changes |
| CommentReplyComponent.ViewFor | src/components/CommentReply/index.tsx:331-362 | each mode selects its view; `default`, `deleted` and any other mode select the default view |
| CommentReplyComponent.DefaultButtons | src/components/CommentReply/index.tsx:300-320 | Edit and Delete are offered together iff the user is the author or there is no author |
| CommentReplyComponent.ReplyUpdates | src/components/CommentReply/index.tsx:9-36 | one `UPDATE_REPLY` per update, in order |
| CommentReplyComponent.WithReply | src/state/comments.ts:266-293 | replacing a reply changes only that reply |
| CommentReplyComponent.WithReplyTwice | src/state/comments.ts:266-293 | the second replacement overrides the first |
| CommentReplyComponent.RunReplyUpdates | src/components/CommentReply/index.tsx:9-36 | dispatching updates of a present reply merges them into it in order and changes nothing else |
| CommentReplyComponent.RunOneReplyUpdate | src/components/CommentReply/index.tsx:9-36 | one update merges into that reply only |
| CommentReplyComponent.SaveReplyActions | src/components/CommentReply/index.tsx:9-36 | saving dispatches two updates of that reply |
| CommentReplyComponent.DeleteReplyActions | src/components/CommentReply/index.tsx:38-58 | mode `deleting`, then the deletion |
| CommentReplyComponent.SaveReplyEffect | src/components/CommentReply/index.tsx:9-36 | saving leaves the reply in mode default, with the draft as text and the rendered author; nothing else changes |
| CommentReplyComponent.EditEffect | src/components/CommentReply/index.tsx:279-288 | Edit (`EditActions`) puts the reply in mode `editing` with its text as draft |
| CommentReplyComponent.EditChangeSave | src/components/CommentReply/index.tsx:84-97 | edit, type `value` (`ChangeTextActions`), save stores `value` and returns to default |
| CommentReplyComponent.EditThenCancel | src/components/CommentReply/index.tsx:99-108 | edit then cancel (`CancelEditActions`) is back to default with the text untouched |
| CommentReplyComponent.DeleteConfirmThenCancel | src/components/CommentReply/index.tsx:185-193 | delete (`DeleteConfirmActions`, src/components/CommentReply/index.tsx:290-298) asks for confirmation; cancel (`CancelDeleteActions`) returns to default |
| CommentReplyComponent.DeleteReplyHandlerEffect | src/components/CommentReply/index.tsx:38-58 | a reply without a truthy remote id leaves the comment's replies and their order; one with it stays in its place in mode deleting, flagged deleted; the other replies, the comment's other fields, the other comments, focus, pin and the remote comment count are unchanged |

## Left out

- Rendering to the DOM is not modelled: JSX, styles, layout positions, the `LayoutController`, and the `isFocused` offset. Only the decisions the renderers take are modelled (view, buttons, listed replies, reply box).
- The asynchronous parts of the handlers are not modelled: `await`, the 1500 ms `setTimeout` before a warning is cleared, and the `try`/`catch` paths into `save_error` and `delete_error`. A handler is the sequence of actions it dispatches.
- The annotation mechanism is an opaque value. `setOnClickHandler`, `onDelete`, `registerWidget` and the body click listener that unfocuses are left out, because they only forward to dispatches modelled elsewhere.
- `Date.parse`, `Date.now`, `getNextCommentId` and `getNextReplyId` become inputs: parsed times and fresh local ids are parameters.
- The translated warning text is a parameter.
- `src/actions/settings.ts` is not part of this model. The settings action is represented by `Settings.UpdateGlobalSettings`.
- The Redux plumbing is not modelled: `combineReducers`, `subscribe` and re-rendering. `reselect` memoisation is not modelled either; a selector is a function of the state.
- `cloneComments`/`cloneReplies`: maps are values here, so copying is the identity and aliasing is not captured.
- `Author.id` is compared only by equality.
- The `useState` in `CommentFormSetComponent`, which freezes `INITIAL_FORMS` at first render, is not modelled. `Form.CommentFormSet` counts the remote ids of the comments it is given.
- CommentComponent.SaveCommentEffect: when the rendered comment has no `newText` property, the save in the source sets `text` to `undefined`. The model keeps the old text instead, because a comment's text is a string here.
- CommentReplyComponent.SaveReplyEffect: the same `newText` deviation for replies.
- CommentComponent.SendReplyActions: `sendReply` also calls a reply warning helper that src/components/Comment/index.tsx:16 imports from src/components/CommentReply/index.tsx. That file does not define it, so the call throws (third row of Findings); this member is the intended sequence without the call.
- CommentComponent.SendReplyEffect: states the intended `sendReply`, whose draft reply is emptied. As written the call at src/components/Comment/index.tsx:162 throws first and the draft is kept; `CommentComponent.SendReplyAsWrittenKeepsDraft` states that. What a working reply warning helper would dispatch is not modelled.
- Selectors.Property: only the spellings `contentpath` and `contentPath` are modelled; reading other properties of a comment is not.
- App.LoadedComment: models the load with the corrected `newComment` of the first row of Findings. As written, loaded comments have no `resolvedAt` and are hidden (`App.AsWrittenHidesNewComments`).
- App.LoadedFields: the same; its `resolvedAt` facts hold for the corrected `newComment` only.
- App.AddBlockEffect: the loaded form it states is built with the corrected `newComment`.
- App.LoadedWithReplies: the same.
- App.BlockEffect: the same.
- App.LoadHolds: the same.
- App.LoadEffect: the same.
- App.MakeCommentActions: the comment it adds is built with the corrected `newComment`, so it has `resolvedAt` `null`; as written it has no `resolvedAt` and is hidden while resolved comments are hidden.
- App.MakeCommentEffect: the same.
- App.MakeCommentKeepsSync: the same.
- `isFocused` is not passed to the comment component by the application, so `CommentComponent.RenderReplies` takes it as a parameter.

## Findings

| source | as written | input that shows it | evidently intended | confidence | as-written member | corrected member |
|---|---|---|---|---|---|---|
| src/state/comments.ts:99-128 | `newComment` does not read a `resolvedAt` option, so the comments it builds lack the property; `renderCommentsUi` (src/main.tsx:101-107) then treats `undefined !== null` as resolved | any comment loaded or made while `showResolvedComments` is false, e.g. an unresolved server comment with `resolved_at: null` | store `resolvedAt` (default `null`) so that only resolved comments are hidden | not executed | App.AsWrittenHidesNewComments | App.StoredResolvedAtDecidesVisibility |
| src/selectors/index.ts:10 | the selector compares `comment.contentPath`, but comments store `contentpath`, so it reads `undefined` | the two-path fixture of src/state/comments.test.ts:14-76 with path `test_contentpath` | compare `comment.contentpath` | not executed | Selectors.AsWrittenSelectsNothing | Selectors.SelectCommentsForContentPath |
| src/components/Comment/index.tsx:162 | `sendReply` calls `addRemoteReplyWarningMessage`, imported at line 16 from src/components/CommentReply/index.tsx, which exports no such function; the call throws after ADD_REPLY, so the draft-reset dispatch at lines 164-168 never runs | any reply sent, e.g. with draft reply `"ok"`: the reply is stored and the draft stays `"ok"` | the draft reply emptied after the reply is stored | not executed | CommentComponent.SendReplyAsWrittenKeepsDraft | CommentComponent.SendReplyEffect |
