/**
  Counting utilities shared by the dashboard's aggregators.

  Every aggregator walks a dataset once, computes a key per record and bumps
  that key's entry in a dictionary (a missing entry reads as 0); it then takes the keys of one or two
  such dictionaries, de-duplicated through a JavaScript `Set`. This module
  gives the reference definitions those steps are proved against:
  `Occurrences` (how many times a key occurs), `Dedup` (a `Set` built from a
  sequence, keeping first-seen order) and `CountsFor`/`Sum` (a column of
  counts and its total).
*/
module Tally {

  /** The key of every element, in order: `data.map(key)`. */
  function KeysOf<T, K>(data: seq<T>, key: T -> K): seq<K>
  {
    seq(|data|, i requires 0 <= i < |data| => key(data[i]))
  }

  /** Number of positions of `s` holding `x`. */
  function Occurrences<K(==)>(s: seq<K>, x: K): nat
  {
    if s == [] then 0
    else Occurrences(s[..|s| - 1], x) + (if s[|s| - 1] == x then 1 else 0)
  }

  predicate Distinct<K(==)>(s: seq<K>)
  {
    forall i, j :: 0 <= i < j < |s| ==> s[i] != s[j]
  }

  /** A `Set` built from `s` and spread back into a list: the distinct elements of `s`, in first-seen order. */
  function Dedup<K(==,!new)>(s: seq<K>): (r: seq<K>)
    ensures Distinct(r)
    ensures forall x :: x in r <==> x in s
    ensures |r| <= |s|
    ensures |r| == 0 <==> |s| == 0
  {
    if s == [] then []
    else
      var d := Dedup(s[..|s| - 1]);
      assert s == s[..|s| - 1] + [s[|s| - 1]];
      if s[|s| - 1] in d then d else d + [s[|s| - 1]]
  }

  /** A dictionary read with a default: the count, or 0 for a key the dictionary never saw. */
  function Lookup<K>(m: map<K, nat>, x: K): nat
  {
    if x in m then m[x] else 0
  }

  /** The count of every key of `keys`, in the order of `keys`. */
  function CountsFor<K(==)>(s: seq<K>, keys: seq<K>): seq<nat>
  {
    seq(|keys|, j requires 0 <= j < |keys| => Occurrences(s, keys[j]))
  }

  function Sum(s: seq<nat>): nat
  {
    if s == [] then 0 else Sum(s[..|s| - 1]) + s[|s| - 1]
  }

  /** `s.slice(0, n)`. */
  function Take<T>(s: seq<T>, n: nat): (r: seq<T>)
    ensures |r| == if |s| <= n then |s| else n
    ensures r <= s
  {
    if |s| <= n then s else s[..n]
  }

  lemma OccurrencesAppend<K>(s: seq<K>, y: K, x: K)
    ensures Occurrences(s + [y], x) == Occurrences(s, x) + (if y == x then 1 else 0)
  {
    assert (s + [y])[..|s|] == s;
  }

  /** A key occurs a positive number of times exactly when it is present. */
  lemma {:induction false} OccurrencesPositive<K>(s: seq<K>, x: K)
    ensures Occurrences(s, x) > 0 <==> x in s
  {
    if s != [] {
      var p := s[..|s| - 1];
      assert s == p + [s[|s| - 1]];
      OccurrencesPositive(p, x);
    }
  }

  /** In a duplicate-free sequence a present key occurs exactly once. */
  lemma {:induction false} OccurrencesDistinct<K>(s: seq<K>, x: K)
    requires Distinct(s)
    requires x in s
    ensures Occurrences(s, x) == 1
  {
    var p := s[..|s| - 1];
    assert s == p + [s[|s| - 1]];
    if s[|s| - 1] == x {
      OccurrencesPositive(p, x);
    } else {
      OccurrencesDistinct(p, x);
    }
  }

  /** `counts` and `order` are the dictionary and key order after tallying the keys `ks`. */
  ghost predicate Tallied<K(!new)>(counts: map<K, nat>, order: seq<K>, ks: seq<K>)
  {
    && (forall x :: Lookup(counts, x) == Occurrences(ks, x))
    && (forall x :: x in counts <==> x in ks)
    && order == Dedup(ks)
  }

  /** One step of the tally loop keeps the dictionary and its key order exact. */
  lemma TallyStep<K(!new)>(counts: map<K, nat>, order: seq<K>, ks: seq<K>, k: K)
    requires Tallied(counts, order, ks)
    ensures Tallied(counts[k := Lookup(counts, k) + 1], if k in counts then order else order + [k], ks + [k])
  {
    assert (ks + [k])[..|ks|] == ks;
    forall x ensures Occurrences(ks + [k], x) == Occurrences(ks, x) + (if k == x then 1 else 0) {
      OccurrencesAppend(ks, k, x);
    }
  }

  /**
    The tally loop: one pass over `data` that bumps the dictionary entry of
    each record's key, returning the dictionary and its key order (the order
    in which keys were first inserted).
  */
  method CountBy<T, K(==,!new)>(data: seq<T>, key: T -> K) returns (counts: map<K, nat>, order: seq<K>)
    ensures forall x :: Lookup(counts, x) == Occurrences(KeysOf(data, key), x)
    ensures forall x :: x in counts <==> x in KeysOf(data, key)
    ensures order == Dedup(KeysOf(data, key))
  {
    counts, order := map[], [];
    var i := 0;
    while i < |data|
      invariant 0 <= i <= |data|
      invariant Tallied(counts, order, KeysOf(data[..i], key))
    {
      var k := key(data[i]);
      KeysOfPrefix(data, i, key);
      TallyStep(counts, order, KeysOf(data[..i], key), k);
      var newOrder := if k in counts then order else order + [k];
      counts, order := counts[k := Lookup(counts, k) + 1], newOrder;
      i := i + 1;
    }
    assert data[..i] == data;
  }

  lemma KeysOfPrefix<T, K>(data: seq<T>, i: nat, key: T -> K)
    requires i < |data|
    ensures KeysOf(data[..i + 1], key) == KeysOf(data[..i], key) + [key(data[i])]
  {
  }

  lemma SumEmpty<K>(keys: seq<K>)
    ensures Sum(CountsFor([], keys)) == 0
  {
    if keys != [] {
      var ks := keys[..|keys| - 1];
      assert CountsFor([], keys)[..|ks|] == CountsFor([], ks);
      SumEmpty(ks);
    }
  }

  /** Appending one element to `s` adds to the column total as many times as that element is listed among the keys. */
  lemma {:induction false} SumAppend<K>(s: seq<K>, y: K, keys: seq<K>)
    ensures Sum(CountsFor(s + [y], keys)) == Sum(CountsFor(s, keys)) + Occurrences(keys, y)
  {
    if keys != [] {
      var ks := keys[..|keys| - 1];
      var z := keys[|keys| - 1];
      assert CountsFor(s + [y], keys)[..|ks|] == CountsFor(s + [y], ks);
      assert CountsFor(s, keys)[..|ks|] == CountsFor(s, ks);
      SumAppend(s, y, ks);
      OccurrencesAppend(s, y, z);
    }
  }

  /**
    Partition: when `keys` lists every key of `s` exactly once, the counts of
    those keys add up to the length of `s` -- no element is lost or counted twice.
  */
  lemma {:induction false} PartitionSum<K>(s: seq<K>, keys: seq<K>)
    requires Distinct(keys)
    requires forall x :: x in s ==> x in keys
    ensures Sum(CountsFor(s, keys)) == |s|
  {
    if s == [] {
      SumEmpty(keys);
    } else {
      var p := s[..|s| - 1];
      var y := s[|s| - 1];
      assert s == p + [y];
      PartitionSum(p, keys);
      SumAppend(p, y, keys);
      OccurrencesDistinct(keys, y);
    }
  }

  /** A `Set` keeps first-insertion order: a new element goes at the end, a repeated one changes nothing. */
  lemma DedupAppend<K(!new)>(s: seq<K>, x: K)
    ensures Dedup(s + [x]) == if x in s then Dedup(s) else Dedup(s) + [x]
  {
    assert (s + [x])[..|s|] == s;
  }

  /** A duplicate-free sequence has as many elements as the set of its elements. */
  lemma {:induction false} DistinctCard<K(!new)>(s: seq<K>)
    requires Distinct(s)
    ensures |set x | x in s| == |s|
  {
    if s != [] {
      var p := s[..|s| - 1];
      var y := s[|s| - 1];
      assert s == p + [y];
      assert Distinct(p) by {
        forall i, j | 0 <= i < j < |p| ensures p[i] != p[j] {
          assert p[i] == s[i] && p[j] == s[j];
        }
      }
      assert y !in p by {
        forall i | 0 <= i < |p| ensures p[i] != y {
          assert p[i] == s[i];
        }
      }
      DistinctCard(p);
      assert (set x | x in s) == (set x | x in p) + {y};
    }
  }

  /**
    Keys that are a function of other keys have no more distinct values: if
    `g` agrees wherever `f` does, `g` takes at most as many distinct values
    over `data` as `f`.
  */
  lemma {:induction false} DedupCoarser<T, A(!new), B(!new)>(data: seq<T>, f: T -> A, g: T -> B)
    requires forall r, r' :: f(r) == f(r') ==> g(r) == g(r')
    ensures |Dedup(KeysOf(data, g))| <= |Dedup(KeysOf(data, f))|
  {
    if data != [] {
      var n := |data| - 1;
      var p := data[..n];
      DedupCoarser(p, f, g);
      KeysOfPrefix(data, n, f);
      KeysOfPrefix(data, n, g);
      assert data[..n + 1] == data;
      DedupAppend(KeysOf(p, f), f(data[n]));
      DedupAppend(KeysOf(p, g), g(data[n]));
      if f(data[n]) in KeysOf(p, f) {
        var i :| 0 <= i < n && KeysOf(p, f)[i] == f(data[n]);
        assert KeysOf(p, g)[i] == g(data[n]);
      }
    }
  }
}
