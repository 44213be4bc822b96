/** Cardinality facts about finite sets that the solver does not have. */
module SetFacts {

  lemma {:induction false} SubsetSize<T>(a: set<T>, b: set<T>)
    requires a <= b
    ensures |a| <= |b|
    decreases a
  {
    if a == {} {
    } else {
      var x :| x in a;
      SubsetSize(a - {x}, b - {x});
    }
  }

  /** A set covered by two others has at most their joint size. */
  lemma CoverSize<T>(a: set<T>, b: set<T>, c: set<T>)
    requires a <= b + c
    ensures |a| <= |b| + |c|
  {
    SubsetSize(a, b + c);
  }

  /** Leaving one more element out makes the difference one smaller. */
  lemma DifferenceStep<T>(a: set<T>, b: set<T>, x: T)
    requires x in a && x !in b
    ensures |a - b| == |a - (b + {x})| + 1
  {
    assert a - b == (a - (b + {x})) + {x};
  }
}
