/** Sequences read as sets, for the work lists of searches. */
module Collections {
  function Elements<T>(s: seq<T>): set<T> {
    set x | x in s
  }

  lemma {:induction false} LastElement<T>(s: seq<T>)
    requires s != []
    ensures Elements(s) == Elements(s[..|s| - 1]) + {s[|s| - 1]}
  {
    assert s == s[..|s| - 1] + [s[|s| - 1]];
  }

  lemma {:induction false} ElementsConcat<T>(a: seq<T>, b: seq<T>)
    ensures Elements(a + b) == Elements(a) + Elements(b)
  {
  }

  /** Settling one more leaves fewer. */
  lemma {:induction false} FewerLeft<T>(whole: set<T>, seen: set<T>, x: T)
    requires x in whole && x !in seen
    ensures |whole - (seen + {x})| < |whole - seen|
  {
    assert whole - (seen + {x}) == whole - seen - {x};
  }

  /** A subset is no larger, and as large only when it is the whole. */
  lemma {:induction false} SubsetSize<T>(a: set<T>, b: set<T>)
    requires a <= b
    ensures |a| <= |b| && (|a| == |b| ==> a == b)
  {
    assert b == a + (b - a);
    assert |b| == |a| + |b - a|;
  }
}
