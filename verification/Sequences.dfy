/** Sequences, and bytes, as several parts use them. */
module Sequences {

  type Byte = b: int | 0 <= b < 256
  type Bytes = seq<Byte>

  ghost predicate NoDuplicates<T>(xs: seq<T>) {
    forall i, j :: 0 <= i < j < |xs| ==> xs[i] != xs[j]
  }

  lemma Associative<T>(a: seq<T>, b: seq<T>, c: seq<T>)
    ensures a + (b + c) == (a + b) + c
  {
  }

  /** `kept` is what stands in `from` at the positions `picks`, in order, each seen through `view`. */
  ghost predicate Picks<S, T>(from: seq<S>, kept: seq<T>, picks: seq<nat>, view: S -> T) {
    && |kept| == |picks|
    && (forall i, j :: 0 <= i < j < |picks| ==> picks[i] < picks[j])
    && (forall i :: 0 <= i < |picks| ==> picks[i] < |from| && kept[i] == view(from[picks[i]]))
  }

  lemma PickedOneMore<S, T>(from: seq<S>, kept: seq<T>, picks: seq<nat>, view: S -> T, last: S)
    requires Picks(from, kept, picks, view)
    ensures Picks(from + [last], kept, picks, view)
    ensures Picks(from + [last], kept + [view(last)], picks + [|from|], view)
  {
  }
}
