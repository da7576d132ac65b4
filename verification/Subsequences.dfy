/** Order-preserving subsequences. */
module Subsequences {

  /** `a` can be obtained from `b` by deleting elements. */
  predicate IsSubsequence<T(==)>(a: seq<T>, b: seq<T>) {
    if a == [] then true
    else if b == [] then false
    else if a[|a| - 1] == b[|b| - 1] && IsSubsequence(a[..|a| - 1], b[..|b| - 1]) then true
    else IsSubsequence(a, b[..|b| - 1])
  }

  /** `at` lists, in increasing order, where in `b` the elements of `a` are found. */
  ghost predicate Selects<T>(at: seq<nat>, a: seq<T>, b: seq<T>) {
    && |at| == |a|
    && (forall k :: 0 <= k < |at| ==> at[k] < |b| && b[at[k]] == a[k])
    && (forall j, k :: 0 <= j < k < |at| ==> at[j] < at[k])
  }

  /** The recursive definition means what it should: strictly increasing positions exist. */
  lemma {:induction false} SubsequencePositions<T>(a: seq<T>, b: seq<T>) returns (at: seq<nat>)
    requires IsSubsequence(a, b)
    ensures Selects(at, a, b)
    decreases |b|
  {
    if a == [] {
      at := [];
    } else if a[|a| - 1] == b[|b| - 1] && IsSubsequence(a[..|a| - 1], b[..|b| - 1]) {
      at := SubsequencePositions(a[..|a| - 1], b[..|b| - 1]);
      at := at + [|b| - 1];
    } else {
      at := SubsequencePositions(a, b[..|b| - 1]);
    }
  }

  lemma {:induction false} Reflexive<T>(a: seq<T>)
    ensures IsSubsequence(a, a)
    decreases |a|
  {
    if a != [] {
      Reflexive(a[..|a| - 1]);
    }
  }

  lemma {:induction false} Transitive<T>(a: seq<T>, b: seq<T>, c: seq<T>)
    requires IsSubsequence(a, b) && IsSubsequence(b, c)
    ensures IsSubsequence(a, c)
    decreases |c|
  {
    if a == [] || b == [] {
    } else if b[|b| - 1] == c[|c| - 1] && IsSubsequence(b[..|b| - 1], c[..|c| - 1]) {
      if a[|a| - 1] == b[|b| - 1] && IsSubsequence(a[..|a| - 1], b[..|b| - 1]) {
        Transitive(a[..|a| - 1], b[..|b| - 1], c[..|c| - 1]);
      } else {
        Transitive(a, b[..|b| - 1], c[..|c| - 1]);
      }
    } else {
      Transitive(a, b, c[..|c| - 1]);
    }
  }

  /** The same suffix may be appended to both sides. */
  lemma {:induction false} Append<T>(a: seq<T>, b: seq<T>, suffix: seq<T>)
    requires IsSubsequence(a, b)
    ensures IsSubsequence(a + suffix, b + suffix)
    decreases |suffix|
  {
    if suffix == [] {
      assert a + suffix == a && b + suffix == b;
    } else {
      var front := suffix[..|suffix| - 1];
      Append(a, b, front);
      assert (a + suffix)[..|a + suffix| - 1] == a + front;
      assert (b + suffix)[..|b + suffix| - 1] == b + front;
    }
  }

  /** Deleting one element leaves a subsequence. */
  lemma DeleteOne<T>(a: seq<T>, x: T, b: seq<T>)
    ensures IsSubsequence(a + b, a + [x] + b)
  {
    Reflexive(a);
    assert (a + [x])[..|a + [x]| - 1] == a;
    Append(a, a + [x], b);
  }

  lemma {:induction false} Extend<T>(a: seq<T>, suffix: seq<T>)
    ensures IsSubsequence(a, a + suffix)
    decreases |suffix|
  {
    if suffix == [] {
      Reflexive(a);
      assert a + suffix == a;
    } else {
      var front := suffix[..|suffix| - 1];
      Extend(a, front);
      assert (a + suffix)[..|a + suffix| - 1] == a + front;
      DropLast(a, a + suffix);
    }
  }

  lemma DropLast<T>(a: seq<T>, b: seq<T>)
    requires b != [] && IsSubsequence(a, b[..|b| - 1])
    ensures IsSubsequence(a, b)
  {
  }

  /** A subsequence is never longer, and one of the same length is the sequence itself. */
  lemma {:induction false} Length<T>(a: seq<T>, b: seq<T>)
    requires IsSubsequence(a, b)
    ensures |a| <= |b|
    ensures |a| == |b| ==> a == b
    decreases |b|
  {
    if a == [] || b == [] {
    } else if a[|a| - 1] == b[|b| - 1] && IsSubsequence(a[..|a| - 1], b[..|b| - 1]) {
      Length(a[..|a| - 1], b[..|b| - 1]);
    } else {
      Length(a, b[..|b| - 1]);
    }
  }
}
