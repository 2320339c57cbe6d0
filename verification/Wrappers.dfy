/** The optional value most of the model's partial lookups return, and lists of positions. */
module Wrappers {
  datatype Option<+T> = None | Some(value: T)

  /** Positions that go from left to right. */
  ghost predicate Increasing(at: seq<nat>) {
    forall i, j :: 0 <= i < j < |at| ==> at[i] < at[j]
  }
}
