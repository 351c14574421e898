/** Enumerating the hash sets and dictionaries the core walks with `foreach`. */
module Collections {

  /** `xs` lists every element of `s` exactly once. */
  ghost predicate Enumerates<T>(xs: seq<T>, s: set<T>)
  {
    |xs| == |s| && (forall x | x in xs :: x in s) && (forall x | x in s :: x in xs) &&
    forall i, j | 0 <= i < j < |xs| :: xs[i] != xs[j]
  }

  /**
   * A `foreach` over a hash set or a dictionary's values: every element once, in an order the
   * collection does not specify.
   */
  method Enumerate<T(==)>(s: set<T>) returns (xs: seq<T>)
    ensures Enumerates(xs, s)
  {
    xs := [];
    var rest := s;
    while rest != {}
      invariant rest <= s
      invariant forall x :: x in xs <==> x in s - rest
      invariant forall i, j | 0 <= i < j < |xs| :: xs[i] != xs[j]
      invariant |xs| + |rest| == |s|
      decreases rest
    {
      var x :| x in rest;
      xs := xs + [x];
      rest := rest - {x};
    }
  }
}
