/** Generic sequence facts the usage renderer's proofs rely on. */
module Collections {

  /** Concatenates `f(x)` over the elements `x` of `s`, in order. */
  function FlatMap<A, B>(f: A -> seq<B>, s: seq<A>): (r: seq<B>)
    ensures |s| == 0 ==> r == []
  {
    if |s| == 0 then [] else f(s[0]) + FlatMap(f, s[1..])
  }

  lemma {:induction false} FlatMapAppend<A, B>(f: A -> seq<B>, a: seq<A>, b: seq<A>)
    ensures FlatMap(f, a + b) == FlatMap(f, a) + FlatMap(f, b)
    decreases |a|
  {
    if |a| > 0 {
      assert (a + b)[1..] == a[1..] + b;
      FlatMapAppend(f, a[1..], b);
    } else {
      assert a + b == b;
    }
  }

  lemma FlatMapPair<A, B>(f: A -> seq<B>, x: A, y: A)
    ensures FlatMap(f, [x]) == f(x)
    ensures FlatMap(f, [x, y]) == f(x) + f(y)
  {
    assert [x, y][1..] == [y];
    assert FlatMap(f, [y]) == f(y) + FlatMap(f, []);
  }

  /** The output around one element of the input. */
  lemma {:induction false} FlatMapSplit<A, B>(f: A -> seq<B>, s: seq<A>, k: nat)
    requires k < |s|
    ensures FlatMap(f, s) == FlatMap(f, s[..k]) + (f(s[k]) + FlatMap(f, s[k + 1..]))
  {
    assert s == s[..k] + s[k..];
    FlatMapAppend(f, s[..k], s[k..]);
    assert s[k..][1..] == s[k + 1..];
    assert FlatMap(f, s[k..]) == f(s[k]) + FlatMap(f, s[k + 1..]);
  }

  /** Removing the element at `k` removes one occurrence of it. */
  lemma MultisetRemove<T>(s: seq<T>, k: nat)
    requires k < |s|
    ensures multiset(s[..k] + s[k + 1..]) == multiset(s) - multiset{s[k]}
  {
    assert s == s[..k] + [s[k]] + s[k + 1..];
  }

  /** Dropping the first element of `a` and a matching element of its permutation `b` leaves permutations. */
  lemma RemoveMatching<T>(a: seq<T>, b: seq<T>, k: nat)
    requires multiset(a) == multiset(b)
    requires 0 < |a| && k < |b| && b[k] == a[0]
    ensures multiset(a[1..]) == multiset(b[..k] + b[k + 1..])
  {
    MultisetRemove(b, k);
    MultisetRemove(a, 0);
    assert a[..0] + a[1..] == a[1..];
  }

  /** The inductive step of FlatMapPermutation: `a` starts with the element at `k` of `b`. */
  lemma {:induction false} FlatMapPermutationStep<A, B>(f: A -> seq<B>, a: seq<A>, b: seq<A>, k: nat)
    requires 0 < |a| && k < |b| && b[k] == a[0]
    requires multiset(FlatMap(f, a[1..])) == multiset(FlatMap(f, b[..k] + b[k + 1..]))
    ensures multiset(FlatMap(f, a)) == multiset(FlatMap(f, b))
  {
    FlatMapSplit(f, b, k);
    FlatMapAppend(f, b[..k], b[k + 1..]);
    var x, y, z := FlatMap(f, b[..k]), f(b[k]), FlatMap(f, b[k + 1..]);
    assert FlatMap(f, a) == y + FlatMap(f, a[1..]);
    assert multiset(FlatMap(f, a)) == multiset(y) + multiset(x + z);
    assert multiset(FlatMap(f, b)) == multiset(x) + (multiset(y) + multiset(z));
  }

  /** Reordering the input only reorders the output. */
  lemma {:induction false} FlatMapPermutation<A, B>(f: A -> seq<B>, a: seq<A>, b: seq<A>)
    requires multiset(a) == multiset(b)
    ensures multiset(FlatMap(f, a)) == multiset(FlatMap(f, b))
    decreases |a|
  {
    if |a| == 0 {
      assert |b| == |multiset(b)| == 0;
    } else {
      assert a[0] in multiset(b);
      var k :| 0 <= k < |b| && b[k] == a[0];
      RemoveMatching(a, b, k);
      FlatMapPermutation(f, a[1..], b[..k] + b[k + 1..]);
      FlatMapPermutationStep(f, a, b, k);
    }
  }

  lemma PrefixTransitive<T>(a: seq<T>, b: seq<T>, c: seq<T>)
    requires a <= b && b <= c
    ensures a <= c
  {
    assert a == b[..|a|] == c[..|b|][..|a|] == c[..|a|];
  }

  /** An element of a prefix of `b` is an element of `b`. */
  lemma PrefixMember<T>(x: T, a: seq<T>, b: seq<T>)
    requires x in a && a <= b
    ensures x in b
  {
    var i :| 0 <= i < |a| && a[i] == x;
    assert b[i] == x;
  }

  /** In a sequence without repetitions every element occurs exactly once. */
  lemma {:induction false} DistinctCountsOnce<T>(s: seq<T>, x: T)
    requires forall i, j :: 0 <= i < j < |s| ==> s[i] != s[j]
    requires x in s
    ensures multiset(s)[x] == 1
    decreases |s|
  {
    assert s == [s[0]] + s[1..];
    if s[0] == x {
      assert x !in s[1..];
    } else {
      DistinctCountsOnce(s[1..], x);
    }
  }
}
