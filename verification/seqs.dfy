/** Sequence vocabulary shared by the store and the pages: filtering in
    order, subsequences, distinctness and first/last occurrence. */
module Seqs {

  /** `a` can be obtained from `b` by deleting elements, keeping order. */
  predicate IsSubsequence<T(==)>(a: seq<T>, b: seq<T>)
    decreases |b|
  {
    if a == [] then true
    else if b == [] then false
    else (a[0] == b[0] && IsSubsequence(a[1..], b[1..])) || IsSubsequence(a, b[1..])
  }

  /** Number of elements of `xs` that satisfy `keep`. */
  function CountWhere<T>(xs: seq<T>, keep: T -> bool): nat
  {
    if xs == [] then 0 else (if keep(xs[0]) then 1 else 0) + CountWhere(xs[1..], keep)
  }

  /** The elements of `xs` that satisfy `keep`, in their original order
      (JavaScript's `Array.prototype.filter`). */
  function Filter<T(!new)>(xs: seq<T>, keep: T -> bool): (r: seq<T>)
    ensures forall x :: x in r <==> x in xs && keep(x)
    ensures IsSubsequence(r, xs)
    ensures |r| == CountWhere(xs, keep)
  {
    if xs == [] then []
    else if keep(xs[0]) then [xs[0]] + Filter(xs[1..], keep)
    else Filter(xs[1..], keep)
  }

  lemma {:induction false} FilterAppend<T(!new)>(a: seq<T>, b: seq<T>, keep: T -> bool)
    ensures Filter(a + b, keep) == Filter(a, keep) + Filter(b, keep)
    decreases |a|
  {
    if a == [] {
      assert a + b == b;
    } else {
      assert (a + b)[1..] == a[1..] + b;
      FilterAppend(a[1..], b, keep);
    }
  }

  lemma {:induction false} FilterKeepsAll<T(!new)>(xs: seq<T>, keep: T -> bool)
    requires forall x :: x in xs ==> keep(x)
    ensures Filter(xs, keep) == xs
    decreases |xs|
  {
    if xs != [] {
      FilterKeepsAll(xs[1..], keep);
    }
  }

  /** A filter that rejects nothing returns its input; one that rejects
      something returns a strictly shorter sequence. */
  lemma {:induction false} FilterShorterIffRejects<T(!new)>(xs: seq<T>, keep: T -> bool)
    ensures |Filter(xs, keep)| == |xs| <==> forall x :: x in xs ==> keep(x)
    decreases |xs|
  {
    if xs != [] {
      FilterShorterIffRejects(xs[1..], keep);
      assert forall x :: x in xs[1..] ==> x in xs;
      assert forall x :: x in xs ==> x == xs[0] || x in xs[1..];
      assert |Filter(xs[1..], keep)| <= |xs[1..]| by { SubsequenceNoLonger(Filter(xs[1..], keep), xs[1..]); }
    }
  }

  lemma {:induction false} SubsequenceNoLonger<T>(a: seq<T>, b: seq<T>)
    requires IsSubsequence(a, b)
    ensures |a| <= |b|
    decreases |b|
  {
    if a != [] {
      if a[0] == b[0] && IsSubsequence(a[1..], b[1..]) {
        SubsequenceNoLonger(a[1..], b[1..]);
      } else {
        SubsequenceNoLonger(a, b[1..]);
      }
    }
  }

  /** A prefix is a subsequence. */
  lemma {:induction false} PrefixIsSubsequence<T>(a: seq<T>, b: seq<T>)
    requires |a| <= |b| && a == b[..|a|]
    ensures IsSubsequence(a, b)
    decreases |b|
  {
    if a != [] {
      assert a[1..] == b[1..][..|a| - 1];
      PrefixIsSubsequence(a[1..], b[1..]);
    }
  }

  lemma {:induction false} SubsequenceTransitive<T>(a: seq<T>, b: seq<T>, c: seq<T>)
    requires IsSubsequence(a, b) && IsSubsequence(b, c)
    ensures IsSubsequence(a, c)
    decreases |c|
  {
    if a != [] {
      if b[0] == c[0] && IsSubsequence(b[1..], c[1..]) {
        if a[0] == b[0] && IsSubsequence(a[1..], b[1..]) {
          SubsequenceTransitive(a[1..], b[1..], c[1..]);
        } else {
          SubsequenceTransitive(a, b[1..], c[1..]);
        }
      } else {
        SubsequenceTransitive(a, b, c[1..]);
      }
    }
  }

  /** No element occurs twice. */
  predicate Distinct<T(==)>(xs: seq<T>)
  {
    forall i, j :: 0 <= i < j < |xs| ==> xs[i] != xs[j]
  }

  /** Index of the first occurrence of `x` in `xs`, or `|xs|` when absent. */
  function FirstIndex<T(==)>(xs: seq<T>, x: T): (r: nat)
    ensures r <= |xs|
    ensures r < |xs| <==> x in xs
    ensures r < |xs| ==> xs[r] == x
    ensures forall i :: 0 <= i < r ==> xs[i] != x
  {
    if xs == [] then 0
    else if xs[0] == x then 0
    else 1 + FirstIndex(xs[1..], x)
  }

  /** Index of the last occurrence of `x` in `xs`, which must occur. */
  function LastIndex<T(==)>(xs: seq<T>, x: T): (r: nat)
    requires x in xs
    ensures r < |xs| && xs[r] == x
    ensures forall i :: r < i < |xs| ==> xs[i] != x
  {
    if xs[|xs| - 1] == x then |xs| - 1
    else LastIndex(xs[..|xs| - 1], x)
  }

  lemma LastIndexAppend<T>(xs: seq<T>, y: T, x: T)
    requires x in xs + [y]
    ensures LastIndex(xs + [y], x) == if x == y then |xs| else LastIndex(xs, x)
  {
    var ys := xs + [y];
    if x != y {
      assert ys[..|ys| - 1] == xs;
    }
  }

  lemma FirstIndexAppend<T>(xs: seq<T>, y: T, x: T)
    requires x in xs
    ensures FirstIndex(xs + [y], x) == FirstIndex(xs, x)
  {
    var a := FirstIndex(xs, x);
    var b := FirstIndex(xs + [y], x);
    assert (xs + [y])[a] == x;
    if b < a {
      assert xs[b] == (xs + [y])[b];
    }
  }

  /** Every element of `keys` occurs in `xs`, and `keys` lists them in the
      order of their first occurrence in `xs`. */
  predicate OrderedByFirstOccurrence<T(==)>(keys: seq<T>, xs: seq<T>)
  {
    forall i, j :: 0 <= i < j < |keys| ==> FirstIndex(xs, keys[i]) < FirstIndex(xs, keys[j])
  }

  /** `keys` lists each distinct element of `xs` exactly once, by first
      occurrence: what inserting `xs` into a JavaScript `Map` (or a keyed
      accumulator) leaves as its key order. */
  ghost predicate IsKeyOrder<T(!new)>(keys: seq<T>, xs: seq<T>)
  {
    && Distinct(keys)
    && (forall k :: k in keys <==> k in xs)
    && OrderedByFirstOccurrence(keys, xs)
  }

  /** Inserting one more element keeps a key order a key order: an existing
      key stays where it is, a new key goes last. */
  lemma KeyOrderStep<T(!new)>(keys: seq<T>, xs: seq<T>, x: T, keys': seq<T>, xs': seq<T>)
    requires IsKeyOrder(keys, xs)
    requires keys' == (if x in keys then keys else keys + [x]) && xs' == xs + [x]
    ensures IsKeyOrder(keys', xs')
  {
    if x in keys {
      KeyOrderStepOld(keys, xs, x);
    } else {
      KeyOrderStepNew(keys, xs, x);
    }
  }

  lemma KeyOrderStepOld<T(!new)>(keys: seq<T>, xs: seq<T>, x: T)
    requires IsKeyOrder(keys, xs) && x in keys
    ensures IsKeyOrder(keys, xs + [x])
  {
    var xs' := xs + [x];
    forall k | k in keys
      ensures FirstIndex(xs', k) == FirstIndex(xs, k)
    {
      FirstIndexAppend(xs, x, k);
    }
    assert forall i :: 0 <= i < |keys| ==> keys[i] in keys;
    assert forall k :: k in xs' <==> k in xs || k == x;
  }

  lemma KeyOrderStepNew<T(!new)>(keys: seq<T>, xs: seq<T>, x: T)
    requires IsKeyOrder(keys, xs) && x !in keys
    ensures IsKeyOrder(keys + [x], xs + [x])
  {
    var xs' := xs + [x];
    var keys' := keys + [x];
    forall k | k in keys
      ensures FirstIndex(xs', k) == FirstIndex(xs, k) < |xs|
    {
      FirstIndexAppend(xs, x, k);
    }
    assert FirstIndex(xs', x) == |xs| by {
      assert x !in xs;
      assert xs'[|xs|] == x;
    }
    DistinctAppend(keys, x);
    assert forall k :: k in xs' <==> k in xs || k == x;
    assert forall k :: k in keys' <==> k in keys || k == x;
    forall i, j | 0 <= i < j < |keys'|
      ensures FirstIndex(xs', keys'[i]) < FirstIndex(xs', keys'[j])
    {
      assert keys'[i] == keys[i] && keys[i] in keys;
      if j < |keys| {
        assert keys'[j] == keys[j] && keys[j] in keys;
      }
    }
  }

  lemma DistinctAppend<T>(xs: seq<T>, x: T)
    requires Distinct(xs) && x !in xs
    ensures Distinct(xs + [x])
  {
    var ys := xs + [x];
    forall i, j | 0 <= i < j < |ys| ensures ys[i] != ys[j] {
      assert ys[i] == xs[i];
      if j < |xs| {
        assert ys[j] == xs[j];
      }
    }
  }

  /** Removing position `i` from a sequence without repetitions removes
      exactly that element. */
  lemma DistinctRemove<T>(xs: seq<T>, i: nat)
    requires Distinct(xs) && i < |xs|
    ensures var ys := xs[..i] + xs[i + 1..];
      Distinct(ys) && |ys| == |xs| - 1 && forall y :: y in ys <==> y in xs && y != xs[i]
  {
    var ys := xs[..i] + xs[i + 1..];
    assert forall k :: 0 <= k < |ys| ==> ys[k] == if k < i then xs[k] else xs[k + 1];
    forall y ensures y in ys <==> y in xs && y != xs[i] {
      if y in xs && y != xs[i] {
        var k :| 0 <= k < |xs| && xs[k] == y;
        assert ys[if k < i then k else k - 1] == y;
      }
    }
  }

  /** The distinct elements of a sequence are no more than its length, and
      exactly as many iff no element repeats. */
  lemma KeyOrderLength<T(!new)>(keys: seq<T>, xs: seq<T>)
    requires IsKeyOrder(keys, xs)
    ensures |keys| <= |xs|
    ensures |keys| == |xs| <==> Distinct(xs)
  {
    KeyOrderLengthBound(keys, xs);
    if Distinct(xs) {
      KeyOrderLengthBound(xs, keys);
    }
  }

  lemma {:induction false} KeyOrderLengthBound<T(!new)>(keys: seq<T>, xs: seq<T>)
    requires Distinct(keys)
    requires forall k :: k in keys <==> k in xs
    ensures |keys| <= |xs|
    ensures |keys| == |xs| ==> Distinct(xs)
    decreases |xs|
  {
    if xs == [] {
      forall k ensures multiset(keys)[k] == 0 {
        assert k !in keys;
      }
      assert multiset(keys) == multiset{};
    } else {
      var x := xs[|xs| - 1];
      var xs' := xs[..|xs| - 1];
      assert xs == xs' + [x];
      assert forall k :: k in xs <==> k in xs' || k == x;
      if x in xs' {
        KeyOrderLengthBound(keys, xs');
      } else {
        var i := FirstIndex(keys, x);
        var keys' := keys[..i] + keys[i + 1..];
        DistinctRemove(keys, i);
        KeyOrderLengthBound(keys', xs');
        if |keys| == |xs| {
          DistinctAppend(xs', x);
        }
      }
    }
  }
}
