/** Sequence operations the scripts take from JavaScript's arrays: `filter`, the
    default `sort` of strings, keeping the first element per key, and running sums. */
module Collections {
  import opened Common

  /** `xs.filter(p)`: the elements satisfying `p`, in their original order. */
  function Filter<T(!new)>(xs: seq<T>, p: T -> bool): (r: seq<T>)
    ensures |r| <= |xs|
    ensures forall i :: 0 <= i < |r| ==> p(r[i])
    ensures forall x :: x in r <==> x in xs && p(x)
  {
    assert xs != [] ==> xs == [xs[0]] + xs[1..];
    if xs == [] then []
    else (if p(xs[0]) then [xs[0]] else []) + Filter(xs[1..], p)
  }

  lemma FilterCons<T(!new)>(x: T, xs: seq<T>, p: T -> bool)
    ensures Filter([x] + xs, p) == (if p(x) then [x] else []) + Filter(xs, p)
  {
    assert ([x] + xs)[1..] == xs;
  }

  /** The filter of a concatenation is the concatenation of the filters. */
  lemma {:induction false} FilterAppend<T(!new)>(xs: seq<T>, ys: seq<T>, p: T -> bool)
    ensures Filter(xs + ys, p) == Filter(xs, p) + Filter(ys, p)
  {
    if xs == [] {
      assert xs + ys == ys;
    } else {
      var x, tail := xs[0], xs[1..];
      var head := if p(x) then [x] else [];
      assert xs == [x] + tail;
      calc {
        Filter(xs + ys, p);
        { assert xs + ys == [x] + (tail + ys); }
        Filter([x] + (tail + ys), p);
        { FilterCons(x, tail + ys, p); }
        head + Filter(tail + ys, p);
        { FilterAppend(tail, ys, p); }
        head + (Filter(tail, p) + Filter(ys, p));
        (head + Filter(tail, p)) + Filter(ys, p);
        { FilterCons(x, tail, p); }
        Filter(xs, p) + Filter(ys, p);
      }
    }
  }

  /** Filtering by a stronger predicate keeps no more elements. */
  lemma {:induction false} FilterStronger<T(!new)>(xs: seq<T>, p: T -> bool, q: T -> bool)
    requires forall x :: q(x) ==> p(x)
    ensures |Filter(xs, q)| <= |Filter(xs, p)|
  {
    if xs != [] {
      FilterStronger(xs[1..], p, q);
    }
  }

  /** The head of `xs.filter(p)` is the first element of `xs` satisfying `p`. */
  lemma {:induction false} FilterHead<T(!new)>(xs: seq<T>, p: T -> bool)
    requires |Filter(xs, p)| > 0
    ensures exists i :: (0 <= i < |xs| && xs[i] == Filter(xs, p)[0] && p(xs[i])
                         && forall j :: 0 <= j < i ==> !p(xs[j]))
  {
    if p(xs[0]) {
      assert xs[0] == Filter(xs, p)[0];
    } else {
      assert Filter(xs, p) == Filter(xs[1..], p);
      FilterHead(xs[1..], p);
      var i :| (0 <= i < |xs[1..]| && xs[1..][i] == Filter(xs[1..], p)[0] && p(xs[1..][i])
                && forall j :: 0 <= j < i ==> !p(xs[1..][j]));
      assert xs[i + 1] == Filter(xs, p)[0];
      forall j | 0 <= j < i + 1
        ensures !p(xs[j])
      {
        if j > 0 {
          assert xs[j] == xs[1..][j - 1];
        }
      }
    }
  }

  // ----- Lexicographic order and the default string sort -----

  /** `a <= b` in the order JavaScript's default `sort` uses for strings:
      character by character, a proper prefix first. */
  predicate LexLe(a: string, b: string)
  {
    if a == [] then true
    else if b == [] then false
    else if a[0] != b[0] then a[0] < b[0]
    else LexLe(a[1..], b[1..])
  }

  lemma {:induction false} LexLeTotal(a: string, b: string)
    ensures LexLe(a, b) || LexLe(b, a)
  {
    if a != [] && b != [] && a[0] == b[0] {
      LexLeTotal(a[1..], b[1..]);
    }
  }

  lemma {:induction false} LexLeTransitive(a: string, b: string, c: string)
    requires LexLe(a, b) && LexLe(b, c)
    ensures LexLe(a, c)
  {
    if a != [] && b != [] && c != [] && a[0] == b[0] && b[0] == c[0] {
      LexLeTransitive(a[1..], b[1..], c[1..]);
    }
  }

  lemma {:induction false} LexLeAntisymmetric(a: string, b: string)
    requires LexLe(a, b) && LexLe(b, a)
    ensures a == b
  {
    if a != [] && b != [] {
      LexLeAntisymmetric(a[1..], b[1..]);
      assert a == [a[0]] + a[1..] && b == [b[0]] + b[1..];
    }
  }

  predicate Sorted(xs: seq<string>)
  {
    forall i, j :: 0 <= i < j < |xs| ==> LexLe(xs[i], xs[j])
  }

  /** `x` placed into the sorted `xs` before the first element it does not exceed. */
  function Insert(x: string, xs: seq<string>): (r: seq<string>)
    requires Sorted(xs)
    ensures multiset(r) == multiset(xs) + multiset{x}
    ensures Sorted(r)
  {
    if xs == [] then [x]
    else if LexLe(x, xs[0]) then
      assert forall j :: 0 <= j < |xs| ==> LexLe(x, xs[j]) by {
        forall j | 0 <= j < |xs| ensures LexLe(x, xs[j]) {
          if j > 0 { LexLeTransitive(x, xs[0], xs[j]); }
        }
      }
      [x] + xs
    else
      var rest := Insert(x, xs[1..]);
      assert xs == [xs[0]] + xs[1..];
      LexLeTotal(x, xs[0]);
      LowerBoundKept(xs[0], x, xs[1..], rest);
      [xs[0]] + rest
  }

  /** A lower bound of `x` and of every element of `xs` bounds every element of a
      permutation of `xs + [x]`. */
  lemma LowerBoundKept(y: string, x: string, xs: seq<string>, r: seq<string>)
    requires multiset(r) == multiset(xs) + multiset{x}
    requires LexLe(y, x) && forall j :: 0 <= j < |xs| ==> LexLe(y, xs[j])
    ensures forall j :: 0 <= j < |r| ==> LexLe(y, r[j])
  {
    forall j | 0 <= j < |r| ensures LexLe(y, r[j]) {
      assert r[j] in multiset(r);
      if r[j] != x {
        assert r[j] in multiset(xs);
        var k :| 0 <= k < |xs| && xs[k] == r[j];
      }
    }
  }

  /** `xs.sort()` on strings: the same strings in ascending lexicographic order. */
  function SortStrings(xs: seq<string>): (r: seq<string>)
    ensures multiset(r) == multiset(xs)
    ensures Sorted(r)
  {
    if xs == [] then []
    else
      assert xs == [xs[0]] + xs[1..];
      Insert(xs[0], SortStrings(xs[1..]))
  }

  /** In a sequence without duplicates every value occurs at most once. */
  lemma {:induction false} DistinctAtMostOnce<T>(xs: seq<T>, x: T)
    requires forall i, j :: 0 <= i < j < |xs| ==> xs[i] != xs[j]
    ensures multiset(xs)[x] <= 1
  {
    if xs != [] {
      var pre := xs[..|xs| - 1];
      assert xs == pre + [xs[|xs| - 1]];
      DistinctAtMostOnce(pre, x);
      forall k | 0 <= k < |pre| ensures pre[k] != xs[|xs| - 1] {
        assert pre[k] == xs[k];
      }
    }
  }

  /** A rearrangement of a sequence without duplicates has none either. */
  lemma PermutationKeepsDistinct<T>(xs: seq<T>, ys: seq<T>)
    requires multiset(xs) == multiset(ys)
    requires forall i, j :: 0 <= i < j < |xs| ==> xs[i] != xs[j]
    ensures forall i, j :: 0 <= i < j < |ys| ==> ys[i] != ys[j]
  {
    forall i, j | 0 <= i < j < |ys| ensures ys[i] != ys[j] {
      DistinctAtMostOnce(xs, ys[i]);
      assert ys == ys[..j] + ys[j..];
      assert ys[i] == ys[..j][i];
      assert ys[j] == ys[j..][0];
    }
  }

  // ----- Keeping the first element per key -----

  predicate HasKey<T, K(==,!new)>(xs: seq<T>, key: T -> K, k: K)
  {
    exists i :: 0 <= i < |xs| && key(xs[i]) == k
  }

  /** The position of the first element of `xs` whose key is `k`. */
  function FirstIndex<T, K(==,!new)>(xs: seq<T>, key: T -> K, k: K): (i: nat)
    requires HasKey(xs, key, k)
    ensures i < |xs| && key(xs[i]) == k
    ensures forall j :: 0 <= j < i ==> key(xs[j]) != k
  {
    if key(xs[0]) == k then 0
    else
      var j :| 0 <= j < |xs| && key(xs[j]) == k;
      assert key(xs[1..][j - 1]) == k;
      1 + FirstIndex(xs[1..], key, k)
  }

  /** The elements of `xs` whose key has not been seen before, in order: the loop
      "push unless an element with the same key is already there". */
  function DedupBy<T, K(==,!new)>(xs: seq<T>, key: T -> K): (r: seq<T>)
    ensures |r| <= |xs|
    ensures forall k :: HasKey(r, key, k) <==> HasKey(xs, key, k)
    ensures forall i, j :: 0 <= i < j < |r| ==> key(r[i]) != key(r[j])
  {
    if xs == [] then []
    else
      var init := DedupBy(xs[..|xs| - 1], key);
      var x := xs[|xs| - 1];
      assert forall k :: HasKey(xs, key, k) <==> HasKey(xs[..|xs| - 1], key, k) || key(x) == k by {
        forall k ensures HasKey(xs, key, k) ==> HasKey(xs[..|xs| - 1], key, k) || key(x) == k {
          if HasKey(xs, key, k) && key(x) != k {
            var i :| 0 <= i < |xs| && key(xs[i]) == k;
            assert key(xs[..|xs| - 1][i]) == k;
          }
        }
        forall k ensures HasKey(xs[..|xs| - 1], key, k) ==> HasKey(xs, key, k) {
          if HasKey(xs[..|xs| - 1], key, k) {
            var i :| 0 <= i < |xs| - 1 && key(xs[..|xs| - 1][i]) == k;
            assert key(xs[i]) == k;
          }
        }
      }
      if HasKey(init, key, key(x)) then init
      else
        var r := init + [x];
        assert forall k :: HasKey(r, key, k) <==> HasKey(init, key, k) || key(x) == k by {
          forall k ensures HasKey(r, key, k) ==> HasKey(init, key, k) || key(x) == k {
            if HasKey(r, key, k) && key(x) != k {
              var i :| 0 <= i < |r| && key(r[i]) == k;
              assert key(init[i]) == k;
            }
          }
          forall k ensures HasKey(init, key, k) ==> HasKey(r, key, k) {
            if HasKey(init, key, k) {
              var i :| 0 <= i < |init| && key(init[i]) == k;
              assert key(r[i]) == k;
            }
          }
          assert key(r[|init|]) == key(x);
        }
        r
  }

  /** One more element: it is kept iff its key is new. */
  lemma DedupBySnoc<T, K(!new)>(xs: seq<T>, x: T, key: T -> K)
    ensures DedupBy(xs + [x], key)
      == if HasKey(DedupBy(xs, key), key, key(x)) then DedupBy(xs, key) else DedupBy(xs, key) + [x]
  {
    var ys := xs + [x];
    assert ys[..|ys| - 1] == xs;
  }

  /** Appending an element does not move the first occurrence of a key already present. */
  lemma FirstIndexAppend<T, K(!new)>(pre: seq<T>, x: T, key: T -> K, k: K)
    requires HasKey(pre, key, k)
    ensures HasKey(pre + [x], key, k)
    ensures FirstIndex(pre + [x], key, k) == FirstIndex(pre, key, k)
  {
    var i := FirstIndex(pre, key, k);
    assert key((pre + [x])[i]) == k;
    var i' := FirstIndex(pre + [x], key, k);
  }

  /** An element whose key is new is its key's first occurrence. */
  lemma FirstIndexNew<T, K(!new)>(pre: seq<T>, x: T, key: T -> K)
    requires !HasKey(pre, key, key(x))
    ensures HasKey(pre + [x], key, key(x))
    ensures FirstIndex(pre + [x], key, key(x)) == |pre|
  {
    assert key((pre + [x])[|pre|]) == key(x);
  }

  /** What `DedupBy` keeps for a key is the FIRST element of `xs` with that key. */
  lemma {:induction false} DedupByKeepsFirst<T, K(!new)>(xs: seq<T>, key: T -> K, m: nat)
    requires m < |DedupBy(xs, key)|
    ensures HasKey(xs, key, key(DedupBy(xs, key)[m]))
    ensures DedupBy(xs, key)[m] == xs[FirstIndex(xs, key, key(DedupBy(xs, key)[m]))]
  {
    var pre := xs[..|xs| - 1];
    var x := xs[|xs| - 1];
    assert xs == pre + [x];
    var init := DedupBy(pre, key);
    if m < |init| {
      DedupByKeepsFirst(pre, key, m);
      FirstIndexAppend(pre, x, key, key(init[m]));
    } else {
      FirstIndexNew(pre, x, key);
    }
  }

  /** The kept elements appear in the order of their first occurrences in `xs`. */
  lemma {:induction false} DedupByKeepsOrder<T, K(!new)>(xs: seq<T>, key: T -> K, m: nat, m': nat)
    requires m < m' < |DedupBy(xs, key)|
    ensures HasKey(xs, key, key(DedupBy(xs, key)[m])) && HasKey(xs, key, key(DedupBy(xs, key)[m']))
    ensures FirstIndex(xs, key, key(DedupBy(xs, key)[m])) < FirstIndex(xs, key, key(DedupBy(xs, key)[m']))
  {
    var pre := xs[..|xs| - 1];
    var x := xs[|xs| - 1];
    assert xs == pre + [x];
    var init := DedupBy(pre, key);
    DedupByKeepsFirst(xs, key, m);
    DedupByKeepsFirst(xs, key, m');
    DedupByKeepsFirst(pre, key, m);
    FirstIndexAppend(pre, x, key, key(init[m]));
    if m' < |init| {
      DedupByKeepsOrder(pre, key, m, m');
      FirstIndexAppend(pre, x, key, key(init[m']));
    } else {
      FirstIndexNew(pre, x, key);
    }
  }

  // ----- Present values -----

  /** The values of the `Some` entries of `xs`, in order. */
  function Somes<T>(xs: seq<Option<T>>): seq<T>
  {
    if xs == [] then []
    else Somes(xs[..|xs| - 1]) + match xs[|xs| - 1] { case Some(x) => [x] case None => [] }
  }

  /** A value is present iff some entry holds it. */
  lemma {:induction false} InSomes<T>(xs: seq<Option<T>>, x: T)
    ensures x in Somes(xs) <==> exists i :: 0 <= i < |xs| && xs[i] == Some(x)
  {
    if xs != [] {
      var pre := xs[..|xs| - 1];
      var last := xs[|xs| - 1];
      InSomes(pre, x);
      assert Somes(xs) == Somes(pre) + match last { case Some(y) => [y] case None => [] };
      assert forall i :: 0 <= i < |pre| ==> pre[i] == xs[i];
    }
  }

  /** A sequence built from the first `n + 1` values of `f` is the one built from its
      first `n` values, followed by `f(n)`. */
  lemma SeqSnoc<T>(n: nat, f: int --> T)
    requires forall k :: 0 <= k <= n ==> f.requires(k)
    ensures seq(n + 1, f) == seq(n, f) + [f(n)]
  {
    var grown := seq(n, f) + [f(n)];
    assert forall k :: 0 <= k < n + 1 ==> seq(n + 1, f)[k] == grown[k];
  }

  // ----- Running sums -----

  function Sum(xs: seq<int>): int
  {
    if xs == [] then 0 else Sum(xs[..|xs| - 1]) + xs[|xs| - 1]
  }

  /** The sum of the first `k` entries of `xs`. */
  function PrefixSum(xs: seq<int>, k: nat): int
    requires k <= |xs|
  {
    Sum(xs[..k])
  }

  /** Each running sum extends the previous one by the next entry. */
  lemma PrefixSumStep(xs: seq<int>, k: nat)
    requires k < |xs|
    ensures PrefixSum(xs, k + 1) == PrefixSum(xs, k) + xs[k]
  {
    assert xs[..k + 1][..k] == xs[..k];
  }

  /** With non-negative entries the running sums never decrease, and with positive
      entries they strictly increase. */
  lemma {:induction false} PrefixSumMonotone(xs: seq<int>, i: nat, j: nat)
    requires i <= j <= |xs|
    requires forall k :: 0 <= k < |xs| ==> xs[k] >= 0
    ensures PrefixSum(xs, i) <= PrefixSum(xs, j)
    ensures i < j && (forall k :: 0 <= k < |xs| ==> xs[k] > 0) ==> PrefixSum(xs, i) < PrefixSum(xs, j)
    decreases j - i
  {
    if i < j {
      PrefixSumMonotone(xs, i, j - 1);
      PrefixSumStep(xs, j - 1);
    }
  }
}
