/** JavaScript value conventions the rest of the model relies on. */
module Js {

  /** A value of type `T | null`. */
  datatype Option<+T> = None | Some(value: T)

  /** A property of a JavaScript object that may be absent: reading an
      absent property yields `undefined`, which is neither `null` nor any
      value of type `T`. */
  datatype Slot<+T> = Missing | Present(value: T)

  /** JavaScript truthiness of a `number | null`: `null` and `0` are falsy. */
  predicate Truthy(x: Option<int>) {
    x.Some? && x.value != 0
  }

  /** JavaScript truthiness of a `boolean` property that may be absent. */
  predicate TruthyFlag(x: Slot<bool>) {
    x == Present(true)
  }

  /** No element occurs twice. */
  predicate Distinct<T(==)>(s: seq<T>) {
    forall i, j :: 0 <= i < j < |s| ==> s[i] != s[j]
  }

  /** The head and the tail of a non-empty sequence with one more element. */
  lemma SnocTail<T>(s: seq<T>, x: T)
    requires s != []
    ensures (s + [x])[0] == s[0] && (s + [x])[1..] == s[1..] + [x]
  {
  }

  /** The head and tail of a concatenation with a non-empty front. */
  lemma ConsTail<T>(a: seq<T>, b: seq<T>)
    requires a != []
    ensures (a + b)[0] == a[0] && (a + b)[1..] == a[1..] + b
  {
  }

  lemma AppendToEmpty<T>(a: seq<T>, b: seq<T>)
    requires a == []
    ensures a + b == b
  {
  }

  lemma AppendAssoc<T>(a: seq<T>, b: seq<T>, c: seq<T>)
    ensures (a + b) + c == a + (b + c)
  {
  }

  /** Appending three pieces one after the other appends their concatenation. */
  lemma AppendThree<T>(a: seq<T>, b: seq<T>, c: seq<T>, d: seq<T>)
    ensures ((a + b) + c) + d == a + ((b + c) + d)
  {
  }

  /** One more element of a prefix. */
  lemma TakeOneMore<T>(s: seq<T>, i: nat)
    requires i < |s|
    ensures s[..i + 1] == s[..i] + [s[i]]
  {
  }

  /** A prefix of a sequence is a prefix of anything it is a prefix of. */
  lemma PrefixTrans<T>(a: seq<T>, b: seq<T>, c: seq<T>)
    requires a <= b && b <= c
    ensures a <= c
  {
  }

  /** A prefix of a sequence is a prefix of that sequence extended. */
  lemma PrefixOfAppend<T>(a: seq<T>, b: seq<T>, c: seq<T>)
    requires a <= b
    ensures a <= b + c
  {
  }
}
