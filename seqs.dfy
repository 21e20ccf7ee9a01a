/** Sequence helpers shared by the loops of the model. */
module Seqs {
  import opened Opt

  /**
   * The values `f` finds in `xs`, in order: the shape of a loop that pushes `m` for every
   * element whose match `m` is not null.
   */
  ghost function FilterMap<A, B>(xs: seq<A>, f: A -> Option<B>): (r: seq<B>)
    ensures |r| <= |xs|
  {
    if |xs| == 0 then []
    else FilterMap(xs[..|xs| - 1], f) + OptionSeq(f(xs[|xs| - 1]))
  }

  function OptionSeq<B>(o: Option<B>): seq<B> {
    if o.Some? then [o.value] else []
  }

  /** Every value in the result is the match of some element. */
  lemma {:induction false} FilterMapSound<A, B>(xs: seq<A>, f: A -> Option<B>, y: B)
    requires y in FilterMap(xs, f)
    ensures exists k :: 0 <= k < |xs| && f(xs[k]) == Some(y)
  {
    var n := |xs|;
    if y in FilterMap(xs[..n - 1], f) {
      FilterMapSound(xs[..n - 1], f, y);
      var k :| 0 <= k < n - 1 && f(xs[..n - 1][k]) == Some(y);
      assert xs[..n - 1][k] == xs[k];
    } else {
      assert f(xs[n - 1]) == Some(y);
    }
  }

  /** Every element with a match contributes it. */
  lemma {:induction false} FilterMapComplete<A, B>(xs: seq<A>, f: A -> Option<B>, k: nat)
    requires k < |xs| && f(xs[k]).Some?
    ensures f(xs[k]).value in FilterMap(xs, f)
  {
    var n := |xs|;
    if k < n - 1 {
      assert xs[..n - 1][k] == xs[k];
      FilterMapComplete(xs[..n - 1], f, k);
    }
  }

  /** Without any match the result is empty. */
  lemma {:induction false} FilterMapNone<A, B>(xs: seq<A>, f: A -> Option<B>)
    requires forall k :: 0 <= k < |xs| ==> f(xs[k]).None?
    ensures FilterMap(xs, f) == []
  {
    if |xs| > 0 {
      FilterMapNone(xs[..|xs| - 1], f);
    }
  }

  /** The loop: `for (const x of xs) { const m = f(x); if (m) ys.push(m) }`. */
  method FilterMapLoop<A, B>(xs: seq<A>, f: A -> Option<B>) returns (ys: seq<B>)
    ensures ys == FilterMap(xs, f)
  {
    ys := [];
    var i := 0;
    while i < |xs|
      invariant 0 <= i <= |xs|
      invariant ys == FilterMap(xs[..i], f)
    {
      assert xs[..i + 1][..i] == xs[..i];
      var m := f(xs[i]);
      if m.Some? {
        ys := ys + [m.value];
      }
      i := i + 1;
    }
    assert xs[..i] == xs;
  }

  /**
   * A non-empty sequence has its first element as a member. Stated as an implication so that
   * callers whose context rules out a non-empty sequence need not write an index term.
   */
  lemma HeadIn<T>(s: seq<T>)
    ensures |s| > 0 ==> s[0] in s
  {
  }

  /** No element occurs twice. */
  predicate NoDup<T(==)>(s: seq<T>) {
    forall i, j :: 0 <= i < j < |s| ==> s[i] != s[j]
  }

  /** A permutation of a sequence without duplicates has none either. */
  lemma PermutationNoDup<T>(a: seq<T>, b: seq<T>)
    requires NoDup(a) && multiset(a) == multiset(b)
    ensures NoDup(b)
  {
    forall x | x in multiset(b)
      ensures multiset(b)[x] == 1
    {
      NoDupCount(a, x);
    }
    forall i, j | 0 <= i < j < |b|
      ensures b[i] != b[j]
    {
      if b[i] == b[j] {
        TwoOccurrences(b, i, j);
        assert false;
      }
    }
  }

  lemma {:induction false} NoDupCount<T>(s: seq<T>, x: T)
    requires NoDup(s) && x in multiset(s)
    ensures multiset(s)[x] == 1
  {
    var n := |s|;
    assert s == s[..n - 1] + [s[n - 1]];
    if s[n - 1] == x {
      assert x !in s[..n - 1];
    } else {
      NoDupCount(s[..n - 1], x);
    }
  }

  lemma TwoOccurrences<T>(s: seq<T>, i: nat, j: nat)
    requires i < j < |s| && s[i] == s[j]
    ensures multiset(s)[s[i]] >= 2
  {
    assert s == s[..j] + [s[j]] + s[j + 1..];
    assert s[i] in s[..j];
  }
}
