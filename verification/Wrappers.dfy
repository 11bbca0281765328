module Wrappers {
  datatype Option<+T> = None | Some(value: T)
}

module Sequences {
  lemma ConcatAssociative<T>(a: seq<T>, b: seq<T>, c: seq<T>)
    ensures (a + b) + c == a + (b + c)
  {}

  function Flatten<T>(parts: seq<seq<T>>): seq<T> {
    if parts == [] then [] else Flatten(parts[..|parts| - 1]) + parts[|parts| - 1]
  }

  lemma {:induction false} FlattenAppend<T>(a: seq<seq<T>>, b: seq<seq<T>>)
    ensures Flatten(a + b) == Flatten(a) + Flatten(b)
  {
    if b == [] {
      assert a + b == a;
    } else {
      var n := |b| - 1;
      FlattenAppend(a, b[..n]);
      ConcatAssociative(Flatten(a), Flatten(b[..n]), b[n]);
      assert (a + b)[..|a| + n] == a + b[..n];
    }
  }
}

/** Runs as the events that happened. */
module Histories {
  /** The events so far, the latest one outermost. */
  datatype Trace<E> = Start | Then(prev: Trace<E>, e: E)

  /** The trace h continues the trace base. */
  ghost predicate Extends<E>(h: Trace<E>, base: Trace<E>) {
    h == base || (h.Then? && Extends(h.prev, base))
  }
}
