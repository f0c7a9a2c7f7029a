/** `update(base, partial)`, i.e. `Object.assign({}, base, partial)`: a fresh
    record whose fields come from `partial` where `partial` has them and
    from `base` elsewhere. Records are merged field by field; each field of
    a partial record is a `Slot`, `Missing` where the partial record lacks it. */
module StateUtils {
  import opened Js

  /** One field of the merge, for a field that every record has. */
  function Merge<T>(base: T, p: Slot<T>): (r: T)
    ensures p.Present? ==> r == p.value
    ensures p.Missing? ==> r == base
  {
    if p.Present? then p.value else base
  }

  /** One field of the merge, for a field that the base record may lack. */
  function MergeSlot<T>(base: Slot<T>, p: Slot<T>): (r: Slot<T>)
    ensures p.Present? ==> r == p
    ensures p.Missing? ==> r == base
  {
    if p.Present? then p else base
  }

  /** Merging an absent field keeps the base; merging the same field twice
      is merging it once. */
  lemma MergeLaws<T>(base: T, p: Slot<T>)
    ensures Merge(base, Missing) == base
    ensures Merge(Merge(base, p), p) == Merge(base, p)
  {
  }

  lemma MergeSlotLaws<T>(base: Slot<T>, p: Slot<T>)
    ensures MergeSlot(base, Missing) == base
    ensures MergeSlot(MergeSlot(base, p), p) == MergeSlot(base, p)
  {
  }
}
