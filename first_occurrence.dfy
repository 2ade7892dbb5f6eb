/** Keeping the first element per key, in order of first appearance: what a
    JavaScript `Map` filled with `if (!m.has(k)) m.set(k, v)` holds, and what
    `Array.from(new Set(xs))` returns. */
module FirstOccurrence {

  /** The keys of the elements of `xs`. */
  function KeySet<T, K>(xs: seq<T>, key: T -> K): set<K>
  {
    set i | 0 <= i < |xs| :: key(xs[i])
  }

  /** The elements of `xs` whose key no earlier element carries, in order. */
  function DedupBy<T, K(==)>(xs: seq<T>, key: T -> K): seq<T>
    decreases |xs|
  {
    if |xs| == 0 then []
    else
      var d := DedupBy(xs[..|xs| - 1], key);
      if key(xs[|xs| - 1]) in KeySet(d, key) then d else d + [xs[|xs| - 1]]
  }

  /** No element before index `j` has the key of `xs[j]`. */
  predicate IsFirst<T, K(==)>(xs: seq<T>, key: T -> K, j: nat)
    requires j < |xs|
  {
    forall i :: 0 <= i < j ==> key(xs[i]) != key(xs[j])
  }

  /** The indices below `n` that hold the first element with their key, ascending. */
  function FirstIndices<T, K(==)>(xs: seq<T>, key: T -> K, n: nat): (ix: seq<nat>)
    requires n <= |xs|
    ensures forall k :: 0 <= k < |ix| ==> ix[k] < n && IsFirst(xs, key, ix[k])
    ensures forall k, l :: 0 <= k < l < |ix| ==> ix[k] < ix[l]
    ensures forall j :: 0 <= j < n && IsFirst(xs, key, j) ==> j in ix
  {
    if n == 0 then []
    else FirstIndices(xs, key, n - 1) + (if IsFirst(xs, key, n - 1) then [n - 1] else [])
  }

  /** The elements of `xs` at the indices `ix`, in the order of `ix`. */
  function Pick<T>(xs: seq<T>, ix: seq<nat>): (r: seq<T>)
    requires forall k :: 0 <= k < |ix| ==> ix[k] < |xs|
    ensures |r| == |ix| && forall k :: 0 <= k < |ix| ==> r[k] == xs[ix[k]]
  {
    if |ix| == 0 then [] else Pick(xs, ix[..|ix| - 1]) + [xs[ix[|ix| - 1]]]
  }

  lemma KeySetAppend<T, K>(xs: seq<T>, x: T, key: T -> K)
    ensures KeySet(xs + [x], key) == KeySet(xs, key) + {key(x)}
  {
    var ys := xs + [x];
    forall y | y in KeySet(ys, key) ensures y in KeySet(xs, key) + {key(x)} {
      var i :| 0 <= i < |ys| && key(ys[i]) == y;
      if i < |xs| { assert ys[i] == xs[i]; }
    }
    forall y | y in KeySet(xs, key) + {key(x)} ensures y in KeySet(ys, key) {
      if y == key(x) {
        assert key(ys[|xs|]) == y;
      } else {
        var i :| 0 <= i < |xs| && key(xs[i]) == y;
        assert key(ys[i]) == y;
      }
    }
  }

  /** Every key of the input is kept, and no other. */
  lemma {:induction false} DedupByKeys<T, K>(xs: seq<T>, key: T -> K)
    ensures KeySet(DedupBy(xs, key), key) == KeySet(xs, key)
    decreases |xs|
  {
    if |xs| > 0 {
      var init, x := xs[..|xs| - 1], xs[|xs| - 1];
      assert xs == init + [x];
      DedupByKeys(init, key);
      KeySetAppend(init, x, key);
      var d := DedupBy(init, key);
      if key(x) !in KeySet(d, key) {
        KeySetAppend(d, x, key);
      }
    }
  }

  /** The element at `n - 1` opens a new key exactly when no element before it has that key. */
  lemma NewKeyIsFirst<T, K>(xs: seq<T>, key: T -> K, n: nat)
    requires 0 < n <= |xs|
    ensures IsFirst(xs, key, n - 1) <==> key(xs[n - 1]) !in KeySet(xs[..n - 1], key)
  {
    var pre := xs[..n - 1];
    if key(xs[n - 1]) in KeySet(pre, key) {
      var i :| 0 <= i < |pre| && key(pre[i]) == key(xs[n - 1]);
      assert key(xs[i]) == key(xs[n - 1]);
    } else {
      forall i | 0 <= i < n - 1 ensures key(xs[i]) != key(xs[n - 1]) {
        assert key(pre[i]) in KeySet(pre, key);
      }
    }
  }

  /** The deduplicated prefix `xs[..n]` is exactly the first-occurrence
      elements below `n`, in index order. */
  lemma {:induction false} DedupByIsFirstOccurrences<T, K>(xs: seq<T>, key: T -> K, n: nat)
    requires n <= |xs|
    ensures DedupBy(xs[..n], key) == Pick(xs, FirstIndices(xs, key, n))
  {
    if n > 0 {
      DedupByIsFirstOccurrences(xs, key, n - 1);
      var pre := xs[..n - 1];
      assert xs[..n][..n - 1] == pre;
      DedupByKeys(pre, key);
      NewKeyIsFirst(xs, key, n);
      var d := DedupBy(pre, key);
      var ix, ix' := FirstIndices(xs, key, n), FirstIndices(xs, key, n - 1);
      assert DedupBy(xs[..n], key) == if key(xs[n - 1]) in KeySet(d, key) then d else d + [xs[n - 1]];
      if !IsFirst(xs, key, n - 1) {
        assert ix == ix';
      } else {
        assert ix == ix' + [n - 1];
        assert ix[..|ix| - 1] == ix';
      }
    }
  }

  /** No two kept elements share a key. */
  lemma DedupByDistinct<T, K>(xs: seq<T>, key: T -> K)
    ensures forall i, j :: 0 <= i < j < |DedupBy(xs, key)| ==> key(DedupBy(xs, key)[i]) != key(DedupBy(xs, key)[j])
  {
    DedupByIsFirstOccurrences(xs, key, |xs|);
    assert xs[..|xs|] == xs;
  }

  /** Each kept element is the first element carrying its key. */
  lemma DedupByKeepsFirst<T, K>(xs: seq<T>, key: T -> K)
    ensures var d := DedupBy(xs, key);
            forall k :: 0 <= k < |d| ==> exists j :: 0 <= j < |xs| && d[k] == xs[j] && IsFirst(xs, key, j)
  {
    DedupByIsFirstOccurrences(xs, key, |xs|);
    assert xs[..|xs|] == xs;
    var ix := FirstIndices(xs, key, |xs|);
    var d := DedupBy(xs, key);
    forall k | 0 <= k < |d| ensures exists j :: 0 <= j < |xs| && d[k] == xs[j] && IsFirst(xs, key, j) {
      assert d[k] == xs[ix[k]] && IsFirst(xs, key, ix[k]);
    }
  }

  /** A sequence without repeated keys has as many elements as keys. */
  lemma {:induction false} DistinctKeysCount<T, K>(xs: seq<T>, key: T -> K)
    requires forall i, j :: 0 <= i < j < |xs| ==> key(xs[i]) != key(xs[j])
    ensures |KeySet(xs, key)| == |xs|
    decreases |xs|
  {
    if |xs| > 0 {
      var init, x := xs[..|xs| - 1], xs[|xs| - 1];
      assert xs == init + [x];
      DistinctKeysCount(init, key);
      KeySetAppend(init, x, key);
      assert key(x) !in KeySet(init, key) by {
        forall i | 0 <= i < |init| ensures key(init[i]) != key(x) {
          assert init[i] == xs[i];
        }
      }
    }
  }

  /** Exactly one element survives per distinct key. */
  lemma DedupByOnePerKey<T, K>(xs: seq<T>, key: T -> K)
    ensures |DedupBy(xs, key)| == |KeySet(xs, key)|
  {
    var d := DedupBy(xs, key);
    DedupByDistinct(xs, key);
    assert forall i, j :: 0 <= i < j < |d| ==> key(d[i]) != key(d[j]);
    DistinctKeysCount(d, key);
    DedupByKeys(xs, key);
  }
}
