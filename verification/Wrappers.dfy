/** The usual failure-carrying datatypes, flattening, and a guard for facts that are carried unopened. */
module Wrappers {
  datatype Option<+T> = None | Some(value: T)

  datatype Result<+T, +E> = Ok(value: T) | Err(error: E)

  /** All parts, one after the other. */
  function Flatten<T>(parts: seq<seq<T>>): seq<T> {
    if parts == [] then [] else Flatten(parts[..|parts| - 1]) + parts[|parts| - 1]
  }

  lemma FlattenSnoc<T>(parts: seq<seq<T>>, last: seq<T>)
    ensures Flatten(parts + [last]) == Flatten(parts) + last
  {
    assert (parts + [last])[..|parts|] == parts;
  }

  lemma {:induction false} FlattenCons<T>(first: seq<T>, parts: seq<seq<T>>)
    ensures Flatten([first] + parts) == first + Flatten(parts)
  {
    if parts == [] {
      assert [first] + parts == [] + [first];
      FlattenSnoc([], first);
    } else {
      var init, last := parts[..|parts| - 1], parts[|parts| - 1];
      FlattenCons(first, init);
      assert [first] + parts == [first] + init + [last];
      FlattenSnoc([first] + init, last);
      assert first + Flatten(init) + last == first + (Flatten(init) + last);
    }
  }

  /**
   * Always true. A fact stated under `Inside(k)` is carried from step to step as it stands,
   * and only a proof that writes `Inside(0)` looks into it.
   */
  predicate Inside(k: nat) {
    true
  }
}
