/** Generic list operations the components are built from: JavaScript's
    `filter` and `reduce`, and the grouping of records under a key that a
    `reduce` into a plain object performs. Every recursive definition here
    consumes its sequence from the back, so that a definition applied to
    `s[..i + 1]` is one more step of a left-to-right loop over `s`, which is
    the order in which `reduce` and `filter` visit an array. */
module Seqs {

  /** `r` is obtained from `s` by deleting elements; the elements it keeps
      stay in their original order. */
  predicate IsSubsequence<T(==, !new)>(r: seq<T>, s: seq<T>)
    decreases |s|
  {
    if r == [] then true
    else if s == [] then false
    else
      || (r[|r| - 1] == s[|s| - 1] && IsSubsequence(r[..|r| - 1], s[..|s| - 1]))
      || IsSubsequence(r, s[..|s| - 1])
  }

  /** Every element of a subsequence is an element of the sequence. */
  lemma {:induction false} SubsequenceMembers<T(!new)>(r: seq<T>, s: seq<T>)
    requires IsSubsequence(r, s)
    ensures forall x | x in r :: x in s
    decreases |s|
  {
    if r != [] {
      var r', s' := r[..|r| - 1], s[..|s| - 1];
      if r[|r| - 1] == s[|s| - 1] && IsSubsequence(r', s') {
        SubsequenceMembers(r', s');
        assert r == r' + [r[|r| - 1]];
        assert s == s' + [s[|s| - 1]];
      } else {
        SubsequenceMembers(r, s');
      }
    }
  }

  /** `Array.prototype.filter`: the elements of `s` that satisfy `keep`, in
      their original order, each one as often as it occurs in `s`. */
  function Filter<T(==, !new)>(s: seq<T>, keep: T -> bool): (r: seq<T>)
    ensures |r| <= |s|
    ensures IsSubsequence(r, s)
    ensures forall x :: multiset(r)[x] == if keep(x) then multiset(s)[x] else 0
    decreases |s|
  {
    if s == [] then []
    else
      var init, last := s[..|s| - 1], s[|s| - 1];
      assert s == init + [last];
      var kept := Filter(init, keep);
      if keep(last) then
        assert (kept + [last])[..|kept|] == kept;
        kept + [last]
      else
        kept
  }

  /** Filtering keeps everything when every element satisfies the test. */
  lemma {:induction false} FilterKeepsAll<T(!new)>(s: seq<T>, keep: T -> bool)
    requires forall x | x in s :: keep(x)
    ensures Filter(s, keep) == s
    decreases |s|
  {
    if s != [] {
      var init, last := s[..|s| - 1], s[|s| - 1];
      assert s == init + [last];
      assert forall x | x in init :: x in s;
      FilterKeepsAll(init, keep);
      assert keep(last);
      assert Filter(s, keep) == Filter(init, keep) + [last];
    }
  }

  /** Every element that filtering keeps satisfies the test. */
  lemma FilterSatisfies<T(!new)>(s: seq<T>, keep: T -> bool)
    ensures forall x | x in Filter(s, keep) :: keep(x)
  {
    var r := Filter(s, keep);
    forall x | x in r
      ensures keep(x)
    {
      assert multiset(r)[x] > 0;
    }
  }

  /** Filtering twice with the same test is filtering once. */
  lemma FilterIdempotent<T(!new)>(s: seq<T>, keep: T -> bool)
    ensures Filter(Filter(s, keep), keep) == Filter(s, keep)
  {
    FilterSatisfies(s, keep);
    FilterKeepsAll(Filter(s, keep), keep);
  }

  /** Filtering distributes over concatenation. */
  lemma {:induction false} FilterConcat<T(!new)>(a: seq<T>, b: seq<T>, keep: T -> bool)
    ensures Filter(a + b, keep) == Filter(a, keep) + Filter(b, keep)
    decreases |b|
  {
    if b == [] {
      assert a + b == a;
    } else {
      var b', last := b[..|b| - 1], b[|b| - 1];
      assert a + b == (a + b') + [last];
      assert b == b' + [last];
      var fa, fb' := Filter(a, keep), Filter(b', keep);
      calc {
        Filter(a + b, keep);
        Filter((a + b') + [last], keep);
        { FilterSnoc(a + b', last, keep); }
        if keep(last) then Filter(a + b', keep) + [last] else Filter(a + b', keep);
        { FilterConcat(a, b', keep); }
        if keep(last) then (fa + fb') + [last] else fa + fb';
        { assert (fa + fb') + [last] == fa + (fb' + [last]); }
        fa + (if keep(last) then fb' + [last] else fb');
        { FilterSnoc(b', last, keep); }
        fa + Filter(b, keep);
      }
    }
  }

  /** One step of `filter`: the last element is kept or dropped. */
  lemma FilterSnoc<T(!new)>(s: seq<T>, x: T, keep: T -> bool)
    ensures Filter(s + [x], keep) == if keep(x) then Filter(s, keep) + [x] else Filter(s, keep)
  {
    var c := s + [x];
    assert c[..|c| - 1] == s;
    assert c[|c| - 1] == x;
  }

  /** Filtering a one-element list. */
  lemma FilterSingle<T(!new)>(x: T, keep: T -> bool)
    ensures Filter([x], keep) == if keep(x) then [x] else []
  {
    FilterSnoc([], x, keep);
    assert [] + [x] == [x];
  }

  /** Filtering two permutations of one list gives permutations of one list. */
  lemma FilterPermutation<T(!new)>(a: seq<T>, b: seq<T>, keep: T -> bool)
    requires multiset(a) == multiset(b)
    ensures multiset(Filter(a, keep)) == multiset(Filter(b, keep))
  {
    var fa, fb := Filter(a, keep), Filter(b, keep);
    assert forall x :: multiset(fa)[x] == multiset(fb)[x];
  }

  /** `reduce((acc, x) => acc + w(x), 0)`: the sum of `w` over `s`. */
  function Total<T>(s: seq<T>, w: T -> int): int
    decreases |s|
  {
    if s == [] then 0 else Total(s[..|s| - 1], w) + w(s[|s| - 1])
  }

  /** The sum over a concatenation is the sum of the sums. */
  lemma {:induction false} TotalConcat<T(!new)>(a: seq<T>, b: seq<T>, w: T -> int)
    ensures Total(a + b, w) == Total(a, w) + Total(b, w)
    decreases |b|
  {
    if b == [] {
      assert a + b == a;
    } else {
      var b' := b[..|b| - 1];
      TotalConcat(a, b', w);
      assert (a + b)[..|a + b| - 1] == a + b';
      assert (a + b)[|a + b| - 1] == b[|b| - 1];
    }
  }

  /** One step of the sum: the last element adds its weight. */
  lemma TotalSnoc<T>(s: seq<T>, x: T, w: T -> int)
    ensures Total(s + [x], w) == Total(s, w) + w(x)
  {
    assert (s + [x])[..|s|] == s;
  }

  /** The sum over a one-element list is that element's weight. */
  lemma TotalSingle<T>(x: T, w: T -> int)
    ensures Total([x], w) == w(x)
  {
    TotalSnoc([], x, w);
    assert [] + [x] == [x];
  }

  /** A sum does not depend on the order of the elements summed. */
  lemma {:induction false} TotalPermutation<T(!new)>(a: seq<T>, b: seq<T>, w: T -> int)
    requires multiset(a) == multiset(b)
    ensures Total(a, w) == Total(b, w)
    decreases |a|
  {
    if a == [] {
      assert |b| == |multiset(b)| == 0;
    } else {
      var a', x := a[..|a| - 1], a[|a| - 1];
      assert a == a' + [x];
      assert x in multiset(b);
      var j :| 0 <= j < |b| && b[j] == x;
      var rest := b[..j] + b[j + 1..];
      RemoveAt(b, j);
      assert multiset(a') == multiset(rest) by {
        assert multiset(a') == multiset(a) - multiset{x};
      }
      TotalPermutation(a', rest, w);
      TotalRemoveAt(b, j, w);
      TotalSnoc(a', x, w);
    }
  }

  /** Taking out the element at `j` takes it out of the multiset. */
  lemma RemoveAt<T>(b: seq<T>, j: nat)
    requires j < |b|
    ensures multiset(b) == multiset(b[..j] + b[j + 1..]) + multiset{b[j]}
  {
    assert b == b[..j] + [b[j]] + b[j + 1..];
  }

  /** Taking out the element at `j` takes its weight out of the sum. */
  lemma TotalRemoveAt<T(!new)>(b: seq<T>, j: nat, w: T -> int)
    requires j < |b|
    ensures Total(b, w) == Total(b[..j] + b[j + 1..], w) + w(b[j])
  {
    var before, x, after := b[..j], b[j], b[j + 1..];
    assert b == (before + [x]) + after;
    calc {
      Total(b, w);
      { TotalConcat(before + [x], after, w); }
      Total(before + [x], w) + Total(after, w);
      { TotalSnoc(before, x, w); }
      Total(before, w) + w(x) + Total(after, w);
      { TotalConcat(before, after, w); }
      Total(before + after, w) + w(x);
    }
  }


  /** No element occurs twice. */
  predicate NoDup<T(==, !new)>(s: seq<T>) {
    forall i, j | 0 <= i < j < |s| :: s[i] != s[j]
  }

  /** In a list without repetitions every element is counted at most once. */
  lemma {:induction false} NoDupCountsOnce<T(!new)>(s: seq<T>)
    requires NoDup(s)
    ensures forall x :: multiset(s)[x] <= 1
    decreases |s|
  {
    if s != [] {
      var s', last := s[..|s| - 1], s[|s| - 1];
      assert s == s' + [last];
      assert NoDup(s');
      NoDupCountsOnce(s');
      assert last !in s';
    }
  }

  /** A repetition shows up as a count of two. */
  lemma RepeatCountsTwice<T(!new)>(s: seq<T>, i: nat, j: nat)
    requires i < j < |s| && s[i] == s[j]
    ensures multiset(s)[s[i]] >= 2
  {
    assert s == s[..i] + [s[i]] + s[i + 1..j] + [s[j]] + s[j + 1..];
  }

  /** A permutation of a list without repetitions has none either. */
  lemma NoDupPermutation<T(!new)>(a: seq<T>, b: seq<T>)
    requires multiset(a) == multiset(b) && NoDup(a)
    ensures NoDup(b)
  {
    NoDupCountsOnce(a);
    forall i, j | 0 <= i < j < |b|
      ensures b[i] != b[j]
    {
      if b[i] == b[j] {
        RepeatCountsTwice(b, i, j);
      }
    }
  }

  /** No two elements share a key. */
  predicate UniqueKeys<T(==, !new), K(==, !new)>(s: seq<T>, key: T -> K) {
    forall i, j | 0 <= i < j < |s| :: key(s[i]) != key(s[j])
  }

  /** Deleting elements cannot create a clash of keys. */
  lemma {:induction false} SubsequenceKeepsUniqueKeys<T(!new), K(!new)>(r: seq<T>, s: seq<T>, key: T -> K)
    requires IsSubsequence(r, s) && UniqueKeys(s, key)
    ensures UniqueKeys(r, key)
    decreases |s|
  {
    if r != [] {
      var r', s' := r[..|r| - 1], s[..|s| - 1];
      assert UniqueKeys(s', key);
      if r[|r| - 1] == s[|s| - 1] && IsSubsequence(r', s') {
        SubsequenceKeepsUniqueKeys(r', s', key);
        SubsequenceMembers(r', s');
        forall i | 0 <= i < |r'|
          ensures key(r[i]) != key(r[|r| - 1])
        {
          assert r'[i] in s';
          var k :| 0 <= k < |s'| && s'[k] == r'[i];
          assert s[k] == r[i];
        }
      } else {
        SubsequenceKeepsUniqueKeys(r, s', key);
      }
    }
  }

  /** The keys occurring in `s`. */
  function KeySet<T(==, !new), K(==, !new)>(s: seq<T>, key: T -> K): set<K> {
    set x | x in s :: key(x)
  }

  /** The keys of `s` without repetitions, in the order in which each first
      occurs: the order of `Object.keys` of an object built by visiting `s`
      from left to right and creating a property per new key. */
  function KeysOf<T(==, !new), K(==, !new)>(s: seq<T>, key: T -> K): (r: seq<K>)
    ensures NoDup(r)
    ensures forall k :: k in r <==> k in KeySet(s, key)
    decreases |s|
  {
    if s == [] then []
    else
      var init, last := s[..|s| - 1], s[|s| - 1];
      assert s == init + [last];
      var keys := KeysOf(init, key);
      if key(last) in keys then keys else keys + [key(last)]
  }

  /** The position of the first element of `s` whose key is `k`. */
  function FirstIndex<T(==, !new), K(==, !new)>(s: seq<T>, key: T -> K, k: K): (i: nat)
    requires k in KeySet(s, key)
    ensures i < |s| && key(s[i]) == k
    ensures forall j | 0 <= j < i :: key(s[j]) != k
    decreases |s|
  {
    var init := s[..|s| - 1];
    assert s == init + [s[|s| - 1]];
    if k in KeySet(init, key) then FirstIndex(init, key, k)
    else
      assert forall j | 0 <= j < |init| :: key(init[j]) in KeySet(init, key);
      |s| - 1
  }

  /** One step of `KeySet`. */
  lemma KeySetSnoc<T(!new), K(!new)>(s: seq<T>, x: T, key: T -> K)
    ensures KeySet(s + [x], key) == KeySet(s, key) + {key(x)}
  {
    assert forall y | y in s + [x] :: y in s || y == x;
  }

  /** One step of `KeysOf`: a new key goes last, a known one changes nothing. */
  lemma KeysOfSnoc<T(!new), K(!new)>(s: seq<T>, x: T, key: T -> K)
    ensures KeysOf(s + [x], key) == if key(x) in KeysOf(s, key) then KeysOf(s, key) else KeysOf(s, key) + [key(x)]
  {
    assert (s + [x])[..|s|] == s;
  }

  /** `KeysOf` lists the keys in the order of their first occurrence. */
  lemma {:induction false} KeysInFirstOccurrenceOrder<T(!new), K(!new)>(s: seq<T>, key: T -> K)
    ensures forall i, j | 0 <= i < j < |KeysOf(s, key)| ::
      FirstIndex(s, key, KeysOf(s, key)[i]) < FirstIndex(s, key, KeysOf(s, key)[j])
    decreases |s|
  {
    if s != [] {
      var init, last := s[..|s| - 1], s[|s| - 1];
      assert s == init + [last];
      KeysInFirstOccurrenceOrder(init, key);
      var keys := KeysOf(init, key);
      forall k | k in keys
        ensures FirstIndex(s, key, k) == FirstIndex(init, key, k)
      {
      }
    }
  }

  /** The sum of `w` over the elements of `s` whose key is `k`: the value a
      `reduce` leaves in `acc[k]` when it adds `w(x)` to `acc[key(x)]`. */
  function GroupSum<T(==, !new), K(==, !new)>(s: seq<T>, key: T -> K, w: T -> int, k: K): int
    decreases |s|
  {
    if s == [] then 0
    else GroupSum(s[..|s| - 1], key, w, k) + (if key(s[|s| - 1]) == k then w(s[|s| - 1]) else 0)
  }

  /** One step of `GroupSum`: the new element adds to its own group only. */
  lemma GroupSumSnoc<T(!new), K(!new)>(s: seq<T>, x: T, key: T -> K, w: T -> int, k: K)
    ensures GroupSum(s + [x], key, w, k) == GroupSum(s, key, w, k) + (if key(x) == k then w(x) else 0)
  {
    assert (s + [x])[..|s|] == s;
  }

  /** A key that does not occur has an empty group. */
  lemma {:induction false} GroupSumAbsent<T(!new), K(!new)>(s: seq<T>, key: T -> K, w: T -> int, k: K)
    requires k !in KeySet(s, key)
    ensures GroupSum(s, key, w, k) == 0
    decreases |s|
  {
    if s != [] {
      var init := s[..|s| - 1];
      assert s == init + [s[|s| - 1]];
      GroupSumAbsent(init, key, w, k);
    }
  }

  /** The group sums of `s` over the keys `ks`, added up. */
  function Across<T(==, !new), K(==, !new)>(ks: seq<K>, s: seq<T>, key: T -> K, w: T -> int): int
    decreases |ks|
  {
    if ks == [] then 0
    else Across(ks[..|ks| - 1], s, key, w) + GroupSum(s, key, w, ks[|ks| - 1])
  }

  lemma {:induction false} AcrossEmpty<T(!new), K(!new)>(ks: seq<K>, key: T -> K, w: T -> int)
    ensures Across(ks, [], key, w) == 0
    decreases |ks|
  {
    if ks != [] {
      AcrossEmpty(ks[..|ks| - 1], key, w);
    }
  }

  /** One more element adds its weight to exactly one group, if its key is
      among `ks`. */
  lemma {:induction false} AcrossAppend<T(!new), K(!new)>(ks: seq<K>, s: seq<T>, x: T, key: T -> K, w: T -> int)
    requires NoDup(ks)
    ensures Across(ks, s + [x], key, w) == Across(ks, s, key, w) + (if key(x) in ks then w(x) else 0)
    decreases |ks|
  {
    assert (s + [x])[..|s|] == s;
    if ks != [] {
      var ks' := ks[..|ks| - 1];
      assert ks == ks' + [ks[|ks| - 1]];
      assert NoDup(ks');
      AcrossAppend(ks', s, x, key, w);
    }
  }

  /** When `ks` lists every key of `s` once, the group sums add up to the
      sum over the whole of `s`: grouping loses and duplicates nothing. */
  lemma {:induction false} AcrossCovers<T(!new), K(!new)>(ks: seq<K>, s: seq<T>, key: T -> K, w: T -> int)
    requires NoDup(ks)
    requires forall x | x in s :: key(x) in ks
    ensures Across(ks, s, key, w) == Total(s, w)
    decreases |s|
  {
    if s == [] {
      AcrossEmpty(ks, key, w);
    } else {
      var init, last := s[..|s| - 1], s[|s| - 1];
      assert s == init + [last];
      AcrossCovers(ks, init, key, w);
      AcrossAppend(ks, init, last, key, w);
    }
  }

  /** `Object.values` (or `Object.keys(..).map(k => m[k])`) of an object whose
      keys, in order, are `ks`. */
  function ValuesAt<K(==, !new), V(==, !new)>(ks: seq<K>, m: map<K, V>): (r: seq<V>)
    requires forall k | k in ks :: k in m
    ensures |r| == |ks|
    ensures forall i | 0 <= i < |ks| :: r[i] == m[ks[i]]
    decreases |ks|
  {
    if ks == [] then []
    else ValuesAt(ks[..|ks| - 1], m) + [m[ks[|ks| - 1]]]
  }

  /** When the value stored under each key is that key's group sum, the
      values add up to the group sums across the keys. */
  lemma {:induction false} TotalOfValues<T(!new), K(!new), V(!new)>(ks: seq<K>, m: map<K, V>, f: V -> int, s: seq<T>, key: T -> K, w: T -> int)
    requires forall k | k in ks :: k in m && f(m[k]) == GroupSum(s, key, w, k)
    ensures Total(ValuesAt(ks, m), f) == Across(ks, s, key, w)
    decreases |ks|
  {
    if ks != [] {
      var ks' := ks[..|ks| - 1];
      TotalOfValues(ks', m, f, s, key, w);
      assert ValuesAt(ks, m)[..|ks'|] == ValuesAt(ks', m);
    }
  }
}
