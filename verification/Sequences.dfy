/** Sequences of batches, and the elements of a sequence that belong to one key. */
module Sequences {
  import opened Wrappers

  function Flatten<T>(batches: seq<seq<T>>): seq<T> {
    if batches == [] then [] else Flatten(batches[..|batches| - 1]) + batches[|batches| - 1]
  }

  /** The elements of key `k`, in order. */
  function OfKey<T, K(==)>(xs: seq<T>, keyOf: T -> Option<K>, k: K): seq<T> {
    if xs == [] then []
    else
      var x := xs[|xs| - 1];
      OfKey(xs[..|xs| - 1], keyOf, k) + (if keyOf(x) == Some(k) then [x] else [])
  }

  lemma {:induction false} OfKeyIn<T, K>(xs: seq<T>, keyOf: T -> Option<K>, k: K)
    ensures forall x :: x in OfKey(xs, keyOf, k) <==> x in xs && keyOf(x) == Some(k)
  {
    if xs != [] {
      OfKeyIn(xs[..|xs| - 1], keyOf, k);
      assert xs == xs[..|xs| - 1] + [xs[|xs| - 1]];
    }
  }

  lemma {:induction false} OfKeyConcat<T, K>(a: seq<T>, b: seq<T>, keyOf: T -> Option<K>, k: K)
    ensures OfKey(a + b, keyOf, k) == OfKey(a, keyOf, k) + OfKey(b, keyOf, k)
    decreases |b|
  {
    if b == [] {
      assert a + b == a;
    } else {
      OfKeyConcat(a, b[..|b| - 1], keyOf, k);
      assert (a + b)[..|a + b| - 1] == a + b[..|b| - 1];
    }
  }
}
