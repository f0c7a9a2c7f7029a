/** The hidden inputs that carry the comments to the server as a Django
    formset: a management form (`TOTAL_FORMS`, `INITIAL_FORMS`,
    `MIN_NUM_FORMS`, `MAX_NUM_FORMS`) followed by one form per comment, each
    with a nested reply formset. */
module Form {
  import opened Js
  import opened OrderedMaps
  import opened CommentTypes

  /** The value of a hidden input: a number, a string, or `null`. */
  datatype Value = Num(n: int) | Text(s: string) | Null

  /** One hidden input. */
  datatype Field = Field(name: string, id: string, value: Value)

  /** Every input name in `fs` starts with `p`. */
  predicate NamesStartWith(fs: seq<Field>, p: string) {
    forall i :: 0 <= i < |fs| ==> p <= fs[i].name
  }

  lemma NamesConcat(a: seq<Field>, b: seq<Field>, p: string)
    requires NamesStartWith(a, p) && NamesStartWith(b, p)
    ensures NamesStartWith(a + b, p)
  {
    forall i | 0 <= i < |a + b| ensures p <= (a + b)[i].name {
      if i >= |a| { assert (a + b)[i] == b[i - |a|]; }
    }
  }

  /** Names that start with `q`, which starts with `p`, start with `p`. */
  lemma NamesWeaken(fs: seq<Field>, p: string, q: string)
    requires p <= q && NamesStartWith(fs, q)
    ensures NamesStartWith(fs, p)
  {
    forall i | 0 <= i < |fs| ensures p <= fs[i].name {
      PrefixTrans(p, q, fs[i].name);
    }
  }

  /** A digit character. */
  function Digit(d: nat): (c: char)
    requires d < 10
    ensures '0' <= c <= '9' && c as int - '0' as int == d
  {
    ('0' as int + d) as char
  }

  predicate AllDigits(s: string) {
    forall i :: 0 <= i < |s| ==> '0' <= s[i] <= '9'
  }

  /** `${n}` for a form number: its decimal digits, without leading zeros. */
  function DecimalString(n: nat): (s: string)
    ensures |s| >= 1 && AllDigits(s)
    ensures s[0] == '0' ==> n == 0 && s == "0"
  {
    if n < 10 then [Digit(n)] else DecimalString(n / 10) + [Digit(n % 10)]
  }

  /** The number a string of digits denotes. */
  function ParseDecimal(s: string): (n: nat)
    requires AllDigits(s)
  {
    if s == [] then 0
    else ParseDecimal(s[..|s| - 1]) * 10 + (s[|s| - 1] as int - '0' as int)
  }

  /** Reading back the digits of a form number gives the number. */
  lemma {:induction false} ParseDecimalString(n: nat)
    ensures ParseDecimal(DecimalString(n)) == n
    decreases n
  {
    var s := DecimalString(n);
    if n < 10 {
      assert s[..|s| - 1] == [];
    } else {
      ParseDecimalString(n / 10);
      assert s[..|s| - 1] == DecimalString(n / 10);
    }
  }

  /** Different form numbers give different prefixes. */
  lemma FormPrefixesDistinct(a: nat, b: nat)
    requires a != b
    ensures CommentPrefix(a) != CommentPrefix(b)
  {
    if CommentPrefix(a) == CommentPrefix(b) {
      var p := "comments-";
      assert DecimalString(a) == CommentPrefix(a)[|p|..];
      assert DecimalString(b) == CommentPrefix(b)[|p|..];
      ParseDecimalString(a);
      ParseDecimalString(b);
    }
  }

  /** `PrefixedHiddenInput`: the input named `prefix-fieldName`, whose id is
      its name behind `id_`. */
  function HiddenInput(prefix: string, fieldName: string, value: Value): (f: Field)
    ensures f.name == prefix + "-" + fieldName && f.id == "id_" + f.name && f.value == value
    ensures prefix + "-" <= f.name
  {
    var name := prefix + "-" + fieldName;
    Field(name, "id_" + name, value)
  }

  /** The management form of a formset. */
  function ManagementForm(prefix: string, total: nat, initial: nat): (fs: seq<Field>)
    ensures |fs| == 4
    ensures fs[0] == HiddenInput(prefix, "TOTAL_FORMS", Num(total))
    ensures fs[1] == HiddenInput(prefix, "INITIAL_FORMS", Num(initial))
    ensures fs[2] == HiddenInput(prefix, "MIN_NUM_FORMS", Text("0"))
    ensures fs[3] == HiddenInput(prefix, "MAX_NUM_FORMS", Text(""))
    ensures NamesStartWith(fs, prefix + "-")
  {
    [ HiddenInput(prefix, "TOTAL_FORMS", Num(total)),
      HiddenInput(prefix, "INITIAL_FORMS", Num(initial)),
      HiddenInput(prefix, "MIN_NUM_FORMS", Text("0")),
      HiddenInput(prefix, "MAX_NUM_FORMS", Text("")) ]
  }

  /** The `DELETE` value: `1` for a deleted item, the empty string otherwise. */
  function DeleteValue(deleted: bool): (v: Value)
    ensures v == Num(1) <==> deleted
    ensures v == Text("") <==> !deleted
  {
    if deleted then Num(1) else Text("")
  }

  /** The `id` value: the remote id, or `null` when there is none. */
  function IdValue(remoteId: Option<int>): (v: Value)
    ensures v.Null? <==> remoteId.None?
    ensures remoteId.Some? ==> v == Num(remoteId.value)
  {
    if remoteId.Some? then Num(remoteId.value) else Null
  }

  /** `CommentReplyFormComponent`: the form of reply `formNumber` of a reply
      formset with prefix `prefix`. */
  function ReplyForm(reply: Reply, prefix: string, formNumber: nat): (fs: seq<Field>)
    ensures |fs| == 3
    ensures var p := prefix + "-" + DecimalString(formNumber);
      && fs[0] == HiddenInput(p, "DELETE", DeleteValue(reply.deleted))
      && fs[1] == HiddenInput(p, "id", IdValue(reply.remoteId))
      && fs[2] == HiddenInput(p, "text", Text(reply.text))
    ensures NamesStartWith(fs, prefix + "-")
  {
    var p := prefix + "-" + DecimalString(formNumber);
    var fs := [ HiddenInput(p, "DELETE", DeleteValue(reply.deleted)),
                HiddenInput(p, "id", IdValue(reply.remoteId)),
                HiddenInput(p, "text", Text(reply.text)) ];
    DashPrefix(prefix, DecimalString(formNumber));
    NamesWeaken(fs, prefix + "-", p + "-");
    fs
  }

  /** The forms of `replies`, numbered from `from`. */
  function ReplyForms(replies: seq<Reply>, prefix: string, from: nat): (fs: seq<Field>)
    ensures |fs| == 3 * |replies|
    ensures forall m :: 0 <= m < |replies| ==> fs[3 * m .. 3 * m + 3] == ReplyForm(replies[m], prefix, from + m)
  {
    if replies == [] then []
    else
      var head := ReplyForm(replies[0], prefix, from);
      var rest := ReplyForms(replies[1..], prefix, from + 1);
      assert (head + rest)[..3] == head;
      forall m | 1 <= m < |replies|
        ensures (head + rest)[3 * m .. 3 * m + 3] == rest[3 * (m - 1) .. 3 * (m - 1) + 3]
      {
        SliceAfter(head, rest, 3 * (m - 1), 3 * (m - 1) + 3);
      }
      head + rest
  }

  /** `CommentReplyFormSetComponent`: the reply formset of the comment form
      with prefix `prefix`. */
  function ReplyFormSet(replies: seq<Reply>, prefix: string): (fs: seq<Field>)
    ensures |fs| == 4 + 3 * |replies|
    ensures var p := prefix + "-replies";
      && fs[..4] == ManagementForm(p, |replies|, CountNonNull(ReplyRemoteIds(replies)))
      && forall m :: 0 <= m < |replies| ==> fs[4 + 3 * m .. 4 + 3 * m + 3] == ReplyForm(replies[m], p, m)
    ensures fs[0].value.Num? && fs[1].value.Num? && fs[1].value.n <= fs[0].value.n
  {
    var p := prefix + "-replies";
    var forms := ReplyForms(replies, p, 0);
    var management := ManagementForm(p, |replies|, CountNonNull(ReplyRemoteIds(replies)));
    var fs := management + forms;
    assert forall m :: 0 <= m < |replies| ==> fs[4 + 3 * m .. 4 + 3 * m + 3] == forms[3 * m .. 3 * m + 3] by {
      forall m | 0 <= m < |replies| ensures fs[4 + 3 * m .. 4 + 3 * m + 3] == forms[3 * m .. 3 * m + 3] {
        SliceAfter(management, forms, 3 * m, 3 * m + 3);
      }
    }
    assert fs[..4] == management;
    fs
  }

  /** Every input name of the reply forms starts with the formset's prefix. */
  lemma {:induction false} ReplyFormsNames(replies: seq<Reply>, prefix: string, from: nat)
    ensures NamesStartWith(ReplyForms(replies, prefix, from), prefix + "-")
    decreases |replies|
  {
    if replies != [] {
      ReplyFormsNames(replies[1..], prefix, from + 1);
      NamesConcat(ReplyForm(replies[0], prefix, from), ReplyForms(replies[1..], prefix, from + 1), prefix + "-");
    }
  }

  /** Every input name of a reply formset starts with the prefix of the
      comment form it belongs to. */
  lemma ReplyFormSetNames(replies: seq<Reply>, prefix: string)
    ensures NamesStartWith(ReplyFormSet(replies, prefix), prefix + "-")
  {
    var p := prefix + "-replies";
    ReplyFormsNames(replies, p, 0);
    NamesConcat(ManagementForm(p, |replies|, CountNonNull(ReplyRemoteIds(replies))), ReplyForms(replies, p, 0), p + "-");
    DashPrefix(prefix, "replies");
    NamesWeaken(ReplyFormSet(replies, prefix), prefix + "-", p + "-");
  }

  /** A prefix, then a dash, starts every longer name built on it. */
  lemma DashPrefix(prefix: string, part: string)
    ensures prefix + "-" <= prefix + "-" + part + "-"
  {
    var q := prefix + "-" + part + "-";
    assert q[..|prefix| + 1] == prefix + "-";
  }

  /** A slice of the second part of a concatenation. */
  lemma SliceAfter<T>(a: seq<T>, b: seq<T>, i: nat, j: nat)
    requires i <= j <= |b|
    ensures (a + b)[|a| + i .. |a| + j] == b[i..j]
  {
  }

  /** The prefix of comment form `formNumber`. */
  function CommentPrefix(formNumber: nat): (p: string)
    ensures p == "comments-" + DecimalString(formNumber)
  {
    "comments-" + DecimalString(formNumber)
  }

  /** `CommentFormComponent`: the four fields of the comment, then its
      reply formset over its replies in map order. */
  function CommentForm(comment: Comment, formNumber: nat): (fs: seq<Field>)
    ensures |fs| == 8 + 3 * |comment.replies.keys|
    ensures var p := CommentPrefix(formNumber);
      && fs[0] == HiddenInput(p, "DELETE", DeleteValue(comment.deleted))
      && fs[1] == HiddenInput(p, "id", IdValue(comment.remoteId))
      && fs[2] == HiddenInput(p, "contentpath", Text(comment.contentpath))
      && fs[3] == HiddenInput(p, "text", Text(comment.text))
      && fs[4..] == ReplyFormSet(Values(comment.replies), p)
  {
    var p := CommentPrefix(formNumber);
    CommentFields(comment, p) + ReplyFormSet(Values(comment.replies), p)
  }

  /** The four inputs of a comment's own fields, all named under `p`. */
  function CommentFields(comment: Comment, p: string): (fs: seq<Field>)
    ensures NamesStartWith(fs, p + "-")
  {
    [ HiddenInput(p, "DELETE", DeleteValue(comment.deleted)),
      HiddenInput(p, "id", IdValue(comment.remoteId)),
      HiddenInput(p, "contentpath", Text(comment.contentpath)),
      HiddenInput(p, "text", Text(comment.text)) ]
  }

  /** Every input name of comment form `formNumber` starts with
      `comments-N-`. */
  lemma CommentFormNames(comment: Comment, formNumber: nat)
    ensures NamesStartWith(CommentForm(comment, formNumber), CommentPrefix(formNumber) + "-")
  {
    var p := CommentPrefix(formNumber);
    var fs := CommentForm(comment, formNumber);
    ReplyFormSetNames(Values(comment.replies), p);
    assert fs[..4] == CommentFields(comment, p);
    assert fs == fs[..4] + fs[4..];
    NamesConcat(fs[..4], fs[4..], p + "-");
  }

  /** Two comment forms with different numbers have no input name in
      common: the digits of a form number end at the dash that follows
      them, so a name determines the number of its form. */
  lemma CommentFormNamesDistinct(c: Comment, d: Comment, a: nat, b: nat)
    requires a != b
    ensures forall i, j :: 0 <= i < |CommentForm(c, a)| && 0 <= j < |CommentForm(d, b)| ==>
      CommentForm(c, a)[i].name != CommentForm(d, b)[j].name
  {
    CommentFormNames(c, a);
    CommentFormNames(d, b);
    PrefixedNamesDistinct(CommentForm(c, a), CommentForm(d, b), a, b);
  }

  /** Inputs named under two different form prefixes have different names. */
  lemma PrefixedNamesDistinct(fa: seq<Field>, fb: seq<Field>, a: nat, b: nat)
    requires a != b
    requires NamesStartWith(fa, CommentPrefix(a) + "-") && NamesStartWith(fb, CommentPrefix(b) + "-")
    ensures forall i, j :: 0 <= i < |fa| && 0 <= j < |fb| ==> fa[i].name != fb[j].name
  {
    forall i, j | 0 <= i < |fa| && 0 <= j < |fb| ensures fa[i].name != fb[j].name {
      if fa[i].name == fb[j].name {
        SameFormNumber(a, b, fa[i].name);
      }
    }
  }

  /** A name that starts with the prefixes of forms `a` and `b`, each
      followed by a dash, belongs to one form: `a == b`. */
  lemma SameFormNumber(a: nat, b: nat, x: string)
    requires CommentPrefix(a) + "-" <= x && CommentPrefix(b) + "-" <= x
    ensures a == b
  {
    DashEndsDigits(a, b, x);
    DashEndsDigits(b, a, x);
    var da, db := DecimalString(a), DecimalString(b);
    assert da == x[9..9 + |da|] == db;
    ParseDecimalString(a);
    ParseDecimalString(b);
  }

  /** The digits of a form number in a name end at the dash that follows
      them: the digits of another number found at the same place are no
      longer. */
  lemma DashEndsDigits(a: nat, b: nat, x: string)
    requires CommentPrefix(a) + "-" <= x && CommentPrefix(b) + "-" <= x
    ensures |DecimalString(b)| <= |DecimalString(a)|
    ensures x[..9] == "comments-" && x[9..9 + |DecimalString(a)|] == DecimalString(a)
  {
    var da, db := DecimalString(a), DecimalString(b);
    AfterCommonPrefix("comments-", da + "-", x);
    AfterCommonPrefix("comments-", db + "-", x);
    DigitsEndAtDash(da, db, x[9..]);
  }

  /** What follows a common prefix `p` of `p + s` and `x`. */
  lemma AfterCommonPrefix(p: string, s: string, x: string)
    requires p + s <= x
    ensures x[..|p|] == p && s <= x[|p|..]
  {
    assert x[..|p|] == (p + s)[..|p|];
    forall i | 0 <= i < |s| ensures s[i] == x[|p|..][i] {
      assert (p + s)[|p| + i] == s[i];
    }
  }

  /** Digits `db` cannot run past the dash that ends `da` at the same place. */
  lemma DigitsEndAtDash(da: string, db: string, y: string)
    requires da + "-" <= y && db + "-" <= y && AllDigits(db)
    ensures |db| <= |da| && y[..|da|] == da
  {
    assert y[|da|] == (da + "-")[|da|] == '-';
    forall i | 0 <= i < |db| ensures '0' <= y[i] <= '9' {
      assert y[i] == (db + "-")[i] == db[i];
    }
    assert y[..|da|] == (da + "-")[..|da|] == da;
  }

  /** The fields of consecutive forms, one after the other. */
  function Concat(forms: seq<seq<Field>>): (fs: seq<Field>)
  {
    if forms == [] then [] else forms[0] + Concat(forms[1..])
  }

  lemma {:induction false} ConcatAppend(a: seq<seq<Field>>, b: seq<seq<Field>>)
    ensures Concat(a + b) == Concat(a) + Concat(b)
  {
    if a == [] {
      AppendToEmpty(a, b);
    } else {
      ConsTail(a, b);
      ConcatAppend(a[1..], b);
      AppendAssoc(a[0], Concat(a[1..]), Concat(b));
    }
  }

  /** The form of each comment, numbered by its position in the list. */
  function CommentForms(comments: seq<Comment>): (forms: seq<seq<Field>>)
    ensures |forms| == |comments|
    ensures forall n :: 0 <= n < |comments| ==> forms[n] == CommentForm(comments[n], n)
  {
    seq(|comments|, n requires 0 <= n < |comments| => CommentForm(comments[n], n))
  }

  /** `CommentFormSetComponent`: the management form of prefix `comments`,
      counting every comment and the comments with a remote id, then the
      comment forms in list order. */
  function CommentFormSet(comments: seq<Comment>): (fs: seq<Field>)
    ensures |fs| >= 4
    ensures fs[..4] == ManagementForm("comments", |comments|, CountNonNull(CommentRemoteIds(comments)))
    ensures fs[4..] == Concat(CommentForms(comments))
    ensures fs[0].value.Num? && fs[1].value.Num? && fs[1].value.n <= fs[0].value.n
  {
    var fs := ManagementForm("comments", |comments|, CountNonNull(CommentRemoteIds(comments)))
      + Concat(CommentForms(comments));
    assert fs[..4] == ManagementForm("comments", |comments|, CountNonNull(CommentRemoteIds(comments)));
    fs
  }

  /** Comment `n` of the list contributes the form numbered `n`, between the
      forms of the comments before it and those after it. */
  lemma CommentFormAt(comments: seq<Comment>, n: nat)
    requires n < |comments|
    ensures var forms := CommentForms(comments);
      CommentFormSet(comments)[4..] == Concat(forms[..n]) + CommentForm(comments[n], n) + Concat(forms[n + 1..])
  {
    ConcatAt(CommentForms(comments), n);
  }

  /** The fields of form `n` sit between those of the forms before it and
      those of the forms after it. */
  lemma ConcatAt(forms: seq<seq<Field>>, n: nat)
    requires n < |forms|
    ensures Concat(forms) == Concat(forms[..n]) + forms[n] + Concat(forms[n + 1..])
  {
    var rest := forms[n..];
    assert forms == forms[..n] + rest;
    ConcatAppend(forms[..n], rest);
    assert rest[0] == forms[n] && rest[1..] == forms[n + 1..];
  }
}
