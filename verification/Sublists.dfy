/** Lists whose elements are picked, in order, from another list. */
module Sublists {

  /** `ys` lists the elements of `xs` at the increasing positions `at`. */
  ghost predicate Picked<T>(xs: seq<T>, ys: seq<T>, at: seq<nat>) {
    && |at| == |ys|
    && (forall j | 0 <= j < |at| :: at[j] < |xs| && ys[j] == xs[at[j]])
    && (forall j, k | 0 <= j < k < |at| :: at[j] < at[k])
  }

  lemma PickNothing<T>()
    ensures Picked<T>([], [], [])
  {
  }

  lemma PickSkip<T>(xs: seq<T>, ys: seq<T>, at: seq<nat>, x: T)
    requires Picked(xs, ys, at)
    ensures Picked(xs + [x], ys, at)
  {
  }

  lemma PickTake<T>(xs: seq<T>, ys: seq<T>, at: seq<nat>, x: T)
    requires Picked(xs, ys, at)
    ensures Picked(xs + [x], ys + [x], at + [|xs|])
  {
  }
}
