/** The selector of the comments that belong to one content path. */
module Selectors {
  import opened Js
  import opened OrderedMaps
  import opened CommentTypes
  import opened CommentsReducer
  import opened CommentsFixtures

  /** The two spellings of the content path a comment may be asked for:
      `contentpath`, the property every comment has, and `contentPath`,
      which no comment has. */
  datatype Spelling = Lowercase | CamelCase

  /** The property name of a spelling: the two differ only in the case of
      their eighth letter. */
  function Name(k: Spelling): (name: string)
    ensures |name| == 11 && name[..7] == "content" && name[8..] == "ath"
    ensures name[7] == 'p' <==> k.Lowercase?
    ensures name[7] == 'P' <==> k.CamelCase?
  {
    if k.Lowercase? then "contentpath" else "contentPath"
  }

  /** Reading the property spelt `k` of a comment: the content path under
      `contentpath`, `undefined` under `contentPath`. */
  function Property(c: Comment, k: Spelling): (p: Slot<string>)
    ensures p.Present? <==> Name(k) == "contentpath"
    ensures p.Present? ==> p.value == c.contentpath
  {
    if k.Lowercase? then Present(c.contentpath) else Missing
  }

  /** The comments of `cs` whose property spelt `k` is `path`, in order. */
  function FilterByProperty(cs: seq<Comment>, k: Spelling, path: string): (r: seq<Comment>)
    ensures |r| <= |cs|
    ensures forall c :: c in r <==> c in cs && Property(c, k) == Present(path)
  {
    if cs == [] then []
    else if Property(cs[0], k) == Present(path) then [cs[0]] + FilterByProperty(cs[1..], k, path)
    else FilterByProperty(cs[1..], k, path)
  }

  /** The filter keeps the order of its input: filtering a concatenation is
      concatenating the filtered parts. */
  lemma {:induction false} FilterAppend(a: seq<Comment>, b: seq<Comment>, k: Spelling, path: string)
    ensures FilterByProperty(a + b, k, path) == FilterByProperty(a, k, path) + FilterByProperty(b, k, path)
  {
    if a == [] {
      AppendToEmpty(a, b);
    } else {
      ConsTail(a, b);
      FilterAppend(a[1..], b, k, path);
      AppendAssoc([a[0]], FilterByProperty(a[1..], k, path), FilterByProperty(b, k, path));
    }
  }

  /** The selector for `path`: the comments of the map, in the map's
      iteration order, whose content path is `path`. */
  function SelectCommentsForContentPath(comments: OMap<Comment>, path: string): (r: seq<Comment>)
    ensures |r| <= |comments.keys|
    ensures forall c :: c in r ==> c.contentpath == path
    ensures forall k :: k in comments.entries && comments.entries[k].contentpath == path ==>
      comments.entries[k] in r
    ensures forall c :: c in r ==> exists k :: k in comments.entries && comments.entries[k] == c
  {
    var r := FilterByProperty(Values(comments), Lowercase, path);
    forall k | k in comments.entries && comments.entries[k].contentpath == path
      ensures comments.entries[k] in r
    {
      ValuesCover(comments, k);
    }
    forall c | c in r ensures exists k :: k in comments.entries && comments.entries[k] == c {
      var i :| 0 <= i < |Values(comments)| && Values(comments)[i] == c;
      var k := comments.keys[i];
      assert k in comments.entries && comments.entries[k] == c;
    }
    r
  }

  /** The selector as written: it reads the property `contentPath`. */
  function SelectAsWritten(comments: OMap<Comment>, path: string): (r: seq<Comment>)
    ensures forall c :: c in r ==> c in Values(comments) && Property(c, CamelCase) == Present(path)
  {
    FilterByProperty(Values(comments), CamelCase, path)
  }

  /** As written, every selector returns no comment at all, so a widget
      never sees its comments. */
  lemma AsWrittenSelectsNothing(comments: OMap<Comment>, path: string)
    ensures SelectAsWritten(comments, path) == []
  {
    AbsentPropertySelectsNothing(Values(comments), CamelCase, path);
  }

  /** Filtering on a spelling other than the stored `contentpath` selects
      nothing. */
  lemma {:induction false} AbsentPropertySelectsNothing(cs: seq<Comment>, k: Spelling, path: string)
    requires Name(k) != "contentpath"
    ensures FilterByProperty(cs, k, path) == []
  {
    if cs != [] {
      AbsentPropertySelectsNothing(cs[1..], k, path);
    }
  }

  /** On the two-path fixture each path selects exactly its one comment,
      where the selector as written selects none. */
  lemma SelectorTest(user: Author)
    ensures SelectCommentsForContentPath(BasicCommentsState(user).comments, "test_contentpath") == [Comment1(user)]
    ensures SelectCommentsForContentPath(BasicCommentsState(user).comments, "test_contentpath_2") == [Comment4(user)]
    ensures SelectAsWritten(BasicCommentsState(user).comments, "test_contentpath") == []
  {
    var m := BasicCommentsState(user).comments;
    var vs := Values(m);
    BasicValues(user);
    assert vs[1..] == [Comment4(user)] && vs[1..][1..] == [];
    assert |Comment4(user).contentpath| != |"test_contentpath"|;
    assert FilterByProperty(vs[1..][1..], Lowercase, "test_contentpath") == [];
    assert FilterByProperty(vs[1..], Lowercase, "test_contentpath") == [];
    AsWrittenSelectsNothing(m, "test_contentpath");
  }

  /** The two-path fixture lists its two comments in insertion order. */
  lemma BasicValues(user: Author)
    ensures Values(BasicCommentsState(user).comments) == [Comment1(user), Comment4(user)]
  {
    var m := BasicCommentsState(user).comments;
    assert m.keys == [1, 4];
  }
}
