/** First-seen de-duplication by a key, as the scrapers do it with a `seen`
    set: an entry is kept when no earlier kept entry has the same key. */
module FirstSeen {

  /** The keys of `xs`. */
  function KeysOf<T, K(==)>(xs: seq<T>, key: T -> K): set<K> {
    if xs == [] then {} else KeysOf(xs[..|xs| - 1], key) + {key(xs[|xs| - 1])}
  }

  lemma {:induction false} KeysOfMember<T, K>(xs: seq<T>, key: T -> K, k: K)
    ensures k in KeysOf(xs, key) <==> exists i :: 0 <= i < |xs| && key(xs[i]) == k
  {
    if xs != [] {
      var init := xs[..|xs| - 1];
      KeysOfMember(init, key, k);
      if k in KeysOf(init, key) {
        var i :| 0 <= i < |init| && key(init[i]) == k;
        assert xs[i] == init[i];
      }
      if exists i :: 0 <= i < |xs| && key(xs[i]) == k {
        var i :| 0 <= i < |xs| && key(xs[i]) == k;
        if i < |init| {
          assert init[i] == xs[i];
        }
      }
    }
  }

  /** The entries of `xs` kept by the `seen`-set loop, in their order. */
  function Dedup<T, K(==)>(xs: seq<T>, key: T -> K): seq<T> {
    if xs == [] then []
    else
      var kept := Dedup(xs[..|xs| - 1], key);
      if key(xs[|xs| - 1]) in KeysOf(kept, key) then kept else kept + [xs[|xs| - 1]]
  }

  predicate UniqueKeys<T, K(==)>(xs: seq<T>, key: T -> K) {
    forall i, j :: 0 <= i < j < |xs| ==> key(xs[i]) != key(xs[j])
  }

  /** Entry `i` of `xs` is the first one with its key. */
  predicate IsFirst<T, K(==)>(xs: seq<T>, key: T -> K, i: nat)
    requires i < |xs|
  {
    forall j :: 0 <= j < i ==> key(xs[j]) != key(xs[i])
  }

  /** Reference definition: the entries among the first `n` of `xs` that are
      the first of their key, in order. */
  function Firsts<T, K(==)>(xs: seq<T>, key: T -> K, n: nat): seq<T>
    requires n <= |xs|
  {
    if n == 0 then []
    else Firsts(xs, key, n - 1) + (if IsFirst(xs, key, n - 1) then [xs[n - 1]] else [])
  }

  /** The kept entries have pairwise distinct keys, and together they have
      exactly the keys of the input: no key is lost. */
  lemma {:induction false} DedupKeys<T, K>(xs: seq<T>, key: T -> K)
    ensures UniqueKeys(Dedup(xs, key), key)
    ensures KeysOf(Dedup(xs, key), key) == KeysOf(xs, key)
  {
    if xs != [] {
      var init := xs[..|xs| - 1];
      var x := xs[|xs| - 1];
      var kept := Dedup(init, key);
      DedupKeys(init, key);
      if key(x) !in KeysOf(kept, key) {
        forall i | 0 <= i < |kept|
          ensures key(kept[i]) != key(x)
        {
          KeysOfMember(kept, key, key(kept[i]));
        }
        assert (kept + [x])[..|kept|] == kept;
      }
    }
  }

  /** Every kept entry comes from the input. */
  lemma {:induction false} DedupSubset<T, K>(xs: seq<T>, key: T -> K)
    ensures forall y :: y in Dedup(xs, key) ==> y in xs
  {
    if xs != [] {
      var init := xs[..|xs| - 1];
      DedupSubset(init, key);
      assert forall y :: y in init ==> y in xs;
    }
  }

  /** Dedup agrees with the reference: it keeps exactly the first entry of
      each key, in input order. */
  lemma {:induction false} DedupIsFirsts<T, K>(xs: seq<T>, key: T -> K, n: nat)
    requires n <= |xs|
    ensures Dedup(xs[..n], key) == Firsts(xs, key, n)
  {
    if n > 0 {
      var pre := xs[..n - 1];
      assert xs[..n][..n - 1] == pre;
      DedupIsFirsts(xs, key, n - 1);
      var kept := Dedup(pre, key);
      DedupKeys(pre, key);
      KeysOfMember(pre, key, key(xs[n - 1]));
      if IsFirst(xs, key, n - 1) {
        assert key(xs[n - 1]) !in KeysOf(pre, key) by {
          forall i | 0 <= i < |pre| ensures key(pre[i]) != key(xs[n - 1]) {
            assert pre[i] == xs[i];
          }
        }
      } else {
        var j :| 0 <= j < n - 1 && key(xs[j]) == key(xs[n - 1]);
        assert pre[j] == xs[j];
      }
    }
  }

  /** An input whose keys are already distinct is kept whole. */
  lemma {:induction false} DedupOfUnique<T, K>(xs: seq<T>, key: T -> K)
    requires UniqueKeys(xs, key)
    ensures Dedup(xs, key) == xs
  {
    if xs != [] {
      var init := xs[..|xs| - 1];
      DedupOfUnique(init, key);
      DedupKeys(init, key);
      KeysOfMember(init, key, key(xs[|xs| - 1]));
    }
  }

  /** De-duplicating twice changes nothing more. */
  lemma DedupIdempotent<T, K>(xs: seq<T>, key: T -> K)
    ensures Dedup(Dedup(xs, key), key) == Dedup(xs, key)
  {
    DedupKeys(xs, key);
    DedupOfUnique(Dedup(xs, key), key);
  }

  /** The loop: walk the entries once, keeping a `seen` set of keys. */
  method DedupByKey<T, K(==)>(xs: seq<T>, key: T -> K) returns (r: seq<T>)
    ensures r == Dedup(xs, key)
  {
    r := [];
    var seen: set<K> := {};
    var i := 0;
    while i < |xs|
      invariant 0 <= i <= |xs|
      invariant r == Dedup(xs[..i], key)
      invariant seen == KeysOf(r, key)
    {
      assert xs[..i + 1][..i] == xs[..i];
      var k := key(xs[i]);
      if k !in seen {
        seen := seen + {k};
        r := r + [xs[i]];
        assert r[..|r| - 1] == Dedup(xs[..i], key);
      }
      i := i + 1;
    }
    assert xs[..|xs|] == xs;
  }
}
