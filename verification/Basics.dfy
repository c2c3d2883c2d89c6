/** What every component shares: nullable values, identifiers, and two facts about numbers and sets. */
module Basics {
  datatype Option<+T> = None | Some(value: T)

  /** User and message ids are UUIDs; "" stands for an anonymous caller. */
  type User = string
  type Msg = string

  function Min(a: real, b: real): real { if a <= b then a else b }

  lemma SubsetSize<T>(a: set<T>, b: set<T>)
    requires a <= b
    ensures |a| <= |b|
  {
    assert b == a + (b - a);
  }
}
