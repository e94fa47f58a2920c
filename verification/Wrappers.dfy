module Wrappers {
  datatype Option<+T> = None | Some(value: T)

  // A walk over the keys of a hash map: every key once, in some order.
  ghost predicate VisitsOnce<T>(order: seq<T>, keys: set<T>) {
    && (forall t :: t in order ==> t in keys) && (forall t :: t in keys ==> t in order)
    && (forall i, j :: 0 <= i < j < |order| ==> order[i] != order[j])
  }
}
