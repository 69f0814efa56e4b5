/** Cutting a list into consecutive batches of a fixed size. */
module Chunking {

  function Min(a: int, b: int): int
  {
    if a < b then a else b
  }

  /** The slices xs[i..i + n] for i = 0, n, 2n, ..., the last one clipped at |xs|,
      as `Array.prototype.slice` clips. */
  function Chunks<T>(xs: seq<T>, n: nat): (cs: seq<seq<T>>)
    requires n >= 1
    ensures forall k :: 0 <= k < |cs| ==> 1 <= |cs[k]| <= n
    ensures |cs| <= |xs|
    decreases |xs|
  {
    if xs == [] then []
    else
      var k := Min(n, |xs|);
      [xs[..k]] + Chunks(xs[k..], n)
  }

  /** A non-empty list starts with one batch of up to `n` elements. */
  lemma ChunksFirst<T>(xs: seq<T>, n: nat)
    requires n >= 1 && xs != []
    ensures Chunks(xs, n) == [xs[..Min(n, |xs|)]] + Chunks(xs[Min(n, |xs|)..], n)
  {
  }

  /** The concatenation of a list of batches. */
  function Flatten<T>(cs: seq<seq<T>>): seq<T>
  {
    if cs == [] then [] else cs[0] + Flatten(cs[1..])
  }

  /** `cs` cuts `xs` in order into batches of exactly `n`, except that the last
      one holds between 1 and `n` elements. */
  ghost predicate IsBatching<T>(cs: seq<seq<T>>, xs: seq<T>, n: nat)
  {
    && Flatten(cs) == xs
    && (forall k :: 0 <= k < |cs| - 1 ==> |cs[k]| == n)
    && (cs != [] ==> 1 <= |cs[|cs| - 1]| <= n)
  }

  /** Full batches followed by a short remainder, if any, batch `xs`: the last
      batch is closed when the input ends. */
  lemma ClosingBatch<T>(cs: seq<seq<T>>, last: seq<T>, xs: seq<T>, n: nat)
    requires n >= 1 && Flatten(cs) + last == xs && |last| < n
    requires forall k :: 0 <= k < |cs| ==> |cs[k]| == n
    ensures var all := if last == [] then cs else cs + [last];
      IsBatching(all, xs, n) && all == Chunks(xs, n)
  {
    var all := if last == [] then cs else cs + [last];
    if last == [] {
      assert Flatten(cs) + [] == Flatten(cs);
    } else {
      FlattenAppend(cs, [last]);
      assert Flatten([last]) == last + Flatten([last][1..]);
      assert [last][1..] == [];
    }
    assert IsBatching(all, xs, n);
    BatchingIsChunks(all, xs, n);
  }

  lemma {:induction false} FlattenAppend<T>(a: seq<seq<T>>, b: seq<seq<T>>)
    ensures Flatten(a + b) == Flatten(a) + Flatten(b)
  {
    if a != [] {
      assert (a + b)[1..] == a[1..] + b;
      FlattenAppend(a[1..], b);
    } else {
      assert a + b == b;
    }
  }

  /** Every element lands in exactly one chunk, in order, and the chunk sizes are
      n, n, ..., n, then 1..n. */
  lemma {:induction false} ChunksAreBatching<T>(xs: seq<T>, n: nat)
    requires n >= 1
    ensures IsBatching(Chunks(xs, n), xs, n)
  {
    if xs != [] {
      var k := Min(n, |xs|);
      ChunksAreBatching(xs[k..], n);
      var cs := Chunks(xs, n);
      assert cs == [xs[..k]] + Chunks(xs[k..], n);
      assert cs[1..] == Chunks(xs[k..], n);
      assert Flatten(cs) == xs[..k] + xs[k..] == xs;
      if k < n {
        assert xs[k..] == [];
      }
    }
  }

  /** Conversely, a batching of `xs` into size-`n` batches is unique: it is
      `Chunks(xs, n)`. */
  lemma {:induction false} BatchingIsChunks<T>(cs: seq<seq<T>>, xs: seq<T>, n: nat)
    requires n >= 1
    requires IsBatching(cs, xs, n)
    ensures cs == Chunks(xs, n)
  {
    if cs != [] {
      var k := |cs[0]|;
      assert Flatten(cs) == cs[0] + Flatten(cs[1..]);
      if |cs| == 1 {
        assert Flatten(cs[1..]) == [];
        assert xs == cs[0];
        assert Chunks(xs, n) == [xs[..|xs|]] + Chunks(xs[|xs|..], n);
        assert xs[|xs|..] == [];
      } else {
        assert k == n;
        var rest := Flatten(cs[1..]);
        assert xs[..k] == cs[0] && xs[k..] == rest;
        assert IsBatching(cs[1..], rest, n) by {
          forall j | 0 <= j < |cs[1..]| - 1
            ensures |cs[1..][j]| == n
          {
            assert cs[1..][j] == cs[j + 1];
          }
          assert cs[1..][|cs[1..]| - 1] == cs[|cs| - 1];
        }
        BatchingIsChunks(cs[1..], rest, n);
        assert rest != [] by {
          assert |cs[|cs| - 1]| >= 1;
          FlattenLength(cs[1..], |cs| - 2);
        }
        assert Min(n, |xs|) == n;
      }
    } else {
      assert xs == [];
    }
  }

  lemma {:induction false} FlattenLength<T>(cs: seq<seq<T>>, j: nat)
    requires j < |cs|
    ensures |Flatten(cs)| >= |cs[j]|
  {
    if j > 0 {
      FlattenLength(cs[1..], j - 1);
    }
  }

  /** There are ceil(|xs| / n) chunks: the least c with |xs| <= c * n. */
  lemma {:induction false} ChunksCount<T>(xs: seq<T>, n: nat)
    requires n >= 1
    ensures |xs| <= |Chunks(xs, n)| * n < |xs| + n
  {
    if xs != [] {
      var k := Min(n, |xs|);
      var rest := xs[k..];
      ChunksCount(rest, n);
      var c := |Chunks(rest, n)|;
      assert |Chunks(xs, n)| == c + 1;
      assert (c + 1) * n == c * n + n;
      if k < n {
        assert rest == [];
        assert c == 0;
      } else {
        assert |rest| == |xs| - n;
      }
    }
  }
}

/** Removing later duplicates from a list, keeping the first element for each key,
    as a `Set` of keys seen so far does. */
module Dedup {

  /** The key of a list deduplicated on its own values. */
  function Identity<K>(k: K): K
  {
    k
  }

  /** Some element of `xs` has key `k`. */
  predicate KeyOccurs<T, K(==)>(xs: seq<T>, key: T -> K, k: K)
  {
    exists i :: 0 <= i < |xs| && key(xs[i]) == k
  }

  /** `xs` with each element dropped whose key already occurred earlier in `xs`. */
  function DedupBy<T, K(==)>(xs: seq<T>, key: T -> K): (r: seq<T>)
    ensures |r| <= |xs|
    ensures forall m :: 0 <= m < |r| ==> r[m] in xs
  {
    if xs == [] then []
    else
      var init := xs[..|xs| - 1];
      var x := xs[|xs| - 1];
      if KeyOccurs(init, key, key(x)) then DedupBy(init, key) else DedupBy(init, key) + [x]
  }

  /** Appending one element: it is kept exactly when its key is new, and the keys
      that occur grow by its key. */
  lemma DedupBySnoc<T, K>(xs: seq<T>, key: T -> K, x: T)
    ensures DedupBy(xs + [x], key) == if KeyOccurs(xs, key, key(x)) then DedupBy(xs, key) else DedupBy(xs, key) + [x]
    ensures forall k :: KeyOccurs(xs + [x], key, k) <==> KeyOccurs(xs, key, k) || key(x) == k
  {
    assert (xs + [x])[..|xs|] == xs;
    forall k
      ensures KeyOccurs(xs + [x], key, k) <==> KeyOccurs(xs, key, k) || key(x) == k
    {
      if KeyOccurs(xs, key, k) {
        var i :| 0 <= i < |xs| && key(xs[i]) == k;
        assert (xs + [x])[i] == xs[i];
      }
      if key(x) == k {
        assert (xs + [x])[|xs|] == x;
      }
      if KeyOccurs(xs + [x], key, k) {
        var i :| 0 <= i < |xs + [x]| && key((xs + [x])[i]) == k;
        if i < |xs| {
          assert (xs + [x])[i] == xs[i];
        }
      }
    }
  }

  /** On a list deduplicated on its own values, occurring as a key is membership. */
  lemma OccursIffIn<K>(xs: seq<K>, k: K)
    ensures KeyOccurs(xs, Identity, k) <==> k in xs
  {
    if k in xs {
      var m :| 0 <= m < |xs| && xs[m] == k;
      assert Identity(xs[m]) == k;
    }
  }

  /** The position of the first element of `xs` with key `k`. */
  function FirstIndex<T, K(==)>(xs: seq<T>, key: T -> K, k: K): (i: nat)
    requires KeyOccurs(xs, key, k)
    ensures i < |xs| && key(xs[i]) == k
    ensures forall j :: 0 <= j < i ==> key(xs[j]) != k
  {
    if key(xs[0]) == k then 0
    else
      assert KeyOccurs(xs[1..], key, k) by {
        var j :| 0 <= j < |xs| && key(xs[j]) == k;
        assert j > 0 && key(xs[1..][j - 1]) == k;
      }
      var j := FirstIndex(xs[1..], key, k);
      assert forall m :: 1 <= m < j + 1 ==> xs[m] == xs[1..][m - 1];
      1 + j
  }

  lemma FirstIndexIsUnique<T, K>(xs: seq<T>, key: T -> K, k: K, i: nat)
    requires i < |xs| && key(xs[i]) == k
    requires forall j :: 0 <= j < i ==> key(xs[j]) != k
    ensures KeyOccurs(xs, key, k) && FirstIndex(xs, key, k) == i
  {
    assert KeyOccurs(xs, key, k);
  }

  lemma FirstIndexOfPrefix<T, K>(xs: seq<T>, key: T -> K, k: K, p: nat)
    requires p <= |xs| && KeyOccurs(xs[..p], key, k)
    ensures KeyOccurs(xs, key, k) && FirstIndex(xs, key, k) == FirstIndex(xs[..p], key, k)
  {
    var j := FirstIndex(xs[..p], key, k);
    assert forall m :: 0 <= m <= j ==> xs[..p][m] == xs[m];
    FirstIndexIsUnique(xs, key, k, j);
  }

  /** Dropping duplicates loses no key: the kept elements carry exactly the keys of `xs`. */
  lemma {:induction false} DedupByKeepsEveryKey<T, K>(xs: seq<T>, key: T -> K, k: K)
    ensures KeyOccurs(xs, key, k) <==> KeyOccurs(DedupBy(xs, key), key, k)
  {
    if xs != [] {
      var init := xs[..|xs| - 1];
      var x := xs[|xs| - 1];
      var d := DedupBy(init, key);
      DedupByKeepsEveryKey(init, key, k);
      DedupByKeepsEveryKey(init, key, key(x));
      var r := DedupBy(xs, key);
      if KeyOccurs(xs, key, k) {
        var i :| 0 <= i < |xs| && key(xs[i]) == k;
        if i < |xs| - 1 {
          assert key(init[i]) == k;
          var m :| 0 <= m < |d| && key(d[m]) == k;
          assert key(r[m]) == k;
        } else if !KeyOccurs(init, key, key(x)) {
          assert key(r[|d|]) == k;
        } else {
          var m :| 0 <= m < |d| && key(d[m]) == k;
          assert key(r[m]) == k;
        }
      }
      if KeyOccurs(r, key, k) {
        var m :| 0 <= m < |r| && key(r[m]) == k;
        if m < |d| {
          assert key(d[m]) == k;
          var i :| 0 <= i < |init| && key(init[i]) == k;
          assert key(xs[i]) == k;
        } else {
          assert key(xs[|xs| - 1]) == k;
        }
      }
    }
  }

  /** The last element of `xs` is kept exactly when its key is new. */
  lemma LastIsFirstOccurrence<T, K>(xs: seq<T>, key: T -> K)
    requires xs != [] && !KeyOccurs(xs[..|xs| - 1], key, key(xs[|xs| - 1]))
    ensures KeyOccurs(xs, key, key(xs[|xs| - 1]))
    ensures FirstIndex(xs, key, key(xs[|xs| - 1])) == |xs| - 1
  {
    var init := xs[..|xs| - 1];
    assert forall j :: 0 <= j < |xs| - 1 ==> xs[j] == init[j];
    FirstIndexIsUnique(xs, key, key(xs[|xs| - 1]), |xs| - 1);
  }

  /** Each kept element is the first element of `xs` with its key, payload and all. */
  lemma {:induction false} DedupByKeepsFirst<T, K>(xs: seq<T>, key: T -> K, m: nat)
    requires m < |DedupBy(xs, key)|
    ensures KeyOccurs(xs, key, key(DedupBy(xs, key)[m]))
    ensures FirstIndex(xs, key, key(DedupBy(xs, key)[m])) < |xs|
    ensures DedupBy(xs, key)[m] == xs[FirstIndex(xs, key, key(DedupBy(xs, key)[m]))]
  {
    var init := xs[..|xs| - 1];
    var x := xs[|xs| - 1];
    var d := DedupBy(init, key);
    var r := DedupBy(xs, key);
    if m < |d| {
      assert r[m] == d[m];
      DedupByKeepsFirst(init, key, m);
      FirstIndexOfPrefix(xs, key, key(d[m]), |xs| - 1);
    } else {
      assert r[m] == x;
      LastIsFirstOccurrence(xs, key);
    }
  }

  /** The kept elements appear in the order of their keys' first occurrences. */
  lemma {:induction false} DedupByKeepsOrder<T, K>(xs: seq<T>, key: T -> K, m: nat, n: nat)
    requires m < n < |DedupBy(xs, key)|
    ensures KeyOccurs(xs, key, key(DedupBy(xs, key)[m]))
    ensures KeyOccurs(xs, key, key(DedupBy(xs, key)[n]))
    ensures FirstIndex(xs, key, key(DedupBy(xs, key)[m])) < FirstIndex(xs, key, key(DedupBy(xs, key)[n]))
  {
    var init := xs[..|xs| - 1];
    var x := xs[|xs| - 1];
    var d := DedupBy(init, key);
    var r := DedupBy(xs, key);
    DedupByKeepsFirst(xs, key, m);
    DedupByKeepsFirst(xs, key, n);
    assert r[m] == d[m];
    DedupByKeepsFirst(init, key, m);
    FirstIndexOfPrefix(xs, key, key(d[m]), |xs| - 1);
    if n < |d| {
      assert r[n] == d[n];
      DedupByKeepsOrder(init, key, m, n);
      FirstIndexOfPrefix(xs, key, key(d[n]), |xs| - 1);
    } else {
      assert r[n] == x;
      LastIsFirstOccurrence(xs, key);
    }
  }

  /** No two kept elements share a key. */
  lemma DedupByKeysDistinct<T, K>(xs: seq<T>, key: T -> K, m: nat, n: nat)
    requires m < n < |DedupBy(xs, key)|
    ensures key(DedupBy(xs, key)[m]) != key(DedupBy(xs, key)[n])
  {
    DedupByKeepsOrder(xs, key, m, n);
  }
}
