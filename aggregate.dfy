/** The aggregation steps the pages repeat over lists of rows: sums,
    filters, `find`, and the reduce that groups amounts by a key into a
    dictionary (`acc[k] = (acc[k] || 0) + amount`). A dictionary built this
    way enumerates its keys in the order they were first inserted, so it is
    modelled as a list of buckets with distinct keys. */
module Aggregate {
  import opened Common

  /** `rows.reduce((sum, r) => sum + amount(r), 0)`. */
  function SumOf<T>(rows: seq<T>, amount: T -> real): real
  {
    if rows == [] then 0.0 else SumOf(rows[..|rows| - 1], amount) + amount(rows[|rows| - 1])
  }

  /** `rows.filter(p)`. */
  function Filter<T>(s: seq<T>, p: T -> bool): (r: seq<T>)
    ensures |r| <= |s|
  {
    if s == [] then []
    else
      var last := s[|s| - 1];
      Filter(s[..|s| - 1], p) + (if p(last) then [last] else [])
  }

  /** A filter keeps each element that passes as many times as it occurs,
      and nothing else. */
  lemma {:induction false} FilterCount<T>(s: seq<T>, p: T -> bool)
    ensures forall x :: multiset(Filter(s, p))[x] == if p(x) then multiset(s)[x] else 0
  {
    if s != [] {
      var last := s[|s| - 1];
      FilterCount(s[..|s| - 1], p);
      assert s == s[..|s| - 1] + [last];
    }
  }

  /** An element is kept exactly when it occurs and passes. */
  lemma FilterMembership<T>(s: seq<T>, p: T -> bool)
    ensures forall x :: x in Filter(s, p) <==> x in s && p(x)
  {
    FilterCount(s, p);
    forall x ensures x in Filter(s, p) <==> x in s && p(x) {
      assert x in Filter(s, p) <==> multiset(Filter(s, p))[x] > 0;
      assert x in s <==> multiset(s)[x] > 0;
    }
  }

  /** `r` is `s` with some elements left out and the rest in their order. */
  ghost predicate IsSubsequence<T>(r: seq<T>, s: seq<T>)
  {
    if r == [] then true
    else if s == [] then false
    else (IsSubsequence(r, s[..|s| - 1])
          || (r[|r| - 1] == s[|s| - 1] && IsSubsequence(r[..|r| - 1], s[..|s| - 1])))
  }

  /** A filter keeps the relative order of what it keeps. */
  lemma {:induction false} FilterIsSubsequence<T>(s: seq<T>, p: T -> bool)
    ensures IsSubsequence(Filter(s, p), s)
  {
    if s != [] {
      var s' := s[..|s| - 1];
      var last := s[|s| - 1];
      FilterIsSubsequence(s', p);
      var r, r' := Filter(s, p), Filter(s', p);
      if p(last) {
        assert r == r' + [last];
        assert r[..|r| - 1] == r';
        assert IsSubsequence(r, s);
      } else {
        assert r == r';
      }
    }
  }

  /** A filter keeps everything exactly when every element passes. */
  lemma {:induction false} FilterAll<T>(s: seq<T>, p: T -> bool)
    requires forall x :: x in s ==> p(x)
    ensures Filter(s, p) == s
  {
    if s != [] {
      FilterAll(s[..|s| - 1], p);
      assert s[..|s| - 1] + [s[|s| - 1]] == s;
    }
  }

  /** With non-negative amounts, the sum over a filtered list is at most
      the sum over the whole list. */
  lemma {:induction false} FilteredSumBounded<T>(s: seq<T>, p: T -> bool, amount: T -> real)
    requires forall x :: x in s ==> amount(x) >= 0.0
    ensures SumOf(Filter(s, p), amount) <= SumOf(s, amount)
  {
    if s != [] {
      var s' := s[..|s| - 1];
      var last := s[|s| - 1];
      assert forall x :: x in s' ==> x in s;
      FilteredSumBounded(s', p, amount);
      var r, r' := Filter(s, p), Filter(s', p);
      if p(last) {
        assert r == r' + [last];
        assert r[..|r| - 1] == r';
        assert SumOf(r, amount) == SumOf(r', amount) + amount(last);
      } else {
        assert r == r';
      }
    }
  }

  /** Filtering with two predicates that agree on every element gives the
      same list. */
  lemma {:induction false} FilterAgree<T>(s: seq<T>, p: T -> bool, q: T -> bool)
    requires forall x :: x in s ==> p(x) == q(x)
    ensures Filter(s, p) == Filter(s, q)
  {
    if s != [] {
      FilterAgree(s[..|s| - 1], p, q);
    }
  }

  /** `rows.find(p)`: the first element that satisfies `p`, if any. */
  function Find<T>(s: seq<T>, p: T -> bool): (r: Option<T>)
    ensures r.None? <==> forall i :: 0 <= i < |s| ==> !p(s[i])
    ensures r.Some? ==> exists i :: 0 <= i < |s| && s[i] == r.value && p(s[i])
                          && forall j :: 0 <= j < i ==> !p(s[j])
  {
    if s == [] then None
    else if p(s[0]) then Some(s[0])
    else
      var r := Find(s[1..], p);
      assert forall i :: 0 < i < |s| ==> s[i] == s[1..][i - 1];
      r
  }

  /** One dictionary entry: a key and the amount accumulated for it. */
  datatype Bucket<K> = Bucket(key: K, amount: real)

  function Keys<K>(b: seq<Bucket<K>>): (r: seq<K>)
    ensures |r| == |b|
    ensures forall i :: 0 <= i < |b| ==> r[i] == b[i].key
  {
    if b == [] then [] else [b[0].key] + Keys(b[1..])
  }

  ghost predicate Distinct<K>(s: seq<K>)
  {
    forall i, j :: 0 <= i < j < |s| ==> s[i] != s[j]
  }

  /** `acc[k] || 0`: the amount stored under `k`, or 0 when there is none. */
  function Lookup<K(==)>(b: seq<Bucket<K>>, k: K): real
  {
    if b == [] then 0.0 else if b[0].key == k then b[0].amount else Lookup(b[1..], k)
  }

  /** `Object.values(acc).reduce((sum, s) => sum + s, 0)`. */
  function Total<K>(b: seq<Bucket<K>>): real
  {
    if b == [] then 0.0 else b[0].amount + Total(b[1..])
  }

  /** `acc[k] = (acc[k] || 0) + a`: add to the bucket of `k`, or append a new
      bucket at the end when `k` is not yet a key. */
  function Accumulate<K(==)>(acc: seq<Bucket<K>>, k: K, a: real): seq<Bucket<K>>
  {
    if acc == [] then [Bucket(k, a)]
    else if acc[0].key == k then [Bucket(k, acc[0].amount + a)] + acc[1..]
    else [acc[0]] + Accumulate(acc[1..], k, a)
  }

  /** One step of the reduce keeps the keys distinct, adds `a` to the amount
      of `k` only, appends `k` when it is new, and adds `a` to the total. */
  lemma AccumulateSpec<K>(acc: seq<Bucket<K>>, k: K, a: real)
    requires Distinct(Keys(acc))
    ensures Distinct(Keys(Accumulate(acc, k, a)))
    ensures Keys(Accumulate(acc, k, a)) == if k in Keys(acc) then Keys(acc) else Keys(acc) + [k]
    ensures forall j :: Lookup(Accumulate(acc, k, a), j) == Lookup(acc, j) + (if j == k then a else 0.0)
    ensures Total(Accumulate(acc, k, a)) == Total(acc) + a
  {
    AccumulateKeys(acc, k, a);
    forall j ensures Lookup(Accumulate(acc, k, a), j) == Lookup(acc, j) + (if j == k then a else 0.0) {
      AccumulateLookup(acc, k, a, j);
    }
    AccumulateTotal(acc, k, a);
  }

  /** The keys after one step of the reduce. */
  lemma AccumulateKeys<K>(acc: seq<Bucket<K>>, k: K, a: real)
    requires Distinct(Keys(acc))
    ensures Distinct(Keys(Accumulate(acc, k, a)))
    ensures Keys(Accumulate(acc, k, a)) == if k in Keys(acc) then Keys(acc) else Keys(acc) + [k]
  {
    AccumulateKeyList(acc, k, a);
    var ks := Keys(acc);
    if k !in ks {
      forall i, j | 0 <= i < j < |ks + [k]| ensures (ks + [k])[i] != (ks + [k])[j] {
        if j == |ks| {
          assert ks[i] in ks;
        }
      }
    }
  }

  /** The key list after one step of the reduce: unchanged when `k` is
      already a key, `k` appended otherwise. */
  lemma {:induction false} AccumulateKeyList<K>(acc: seq<Bucket<K>>, k: K, a: real)
    ensures Keys(Accumulate(acc, k, a)) == if k in Keys(acc) then Keys(acc) else Keys(acc) + [k]
  {
    if acc != [] {
      var rest := acc[1..];
      var r := Accumulate(acc, k, a);
      if acc[0].key == k {
        assert r[1..] == rest;
      } else {
        AccumulateKeyList(rest, k, a);
        assert r[1..] == Accumulate(rest, k, a);
        assert k in Keys(acc) <==> k in Keys(rest);
      }
    }
  }

  /** A key not yet present gets a new bucket at the end. */
  lemma {:induction false} AccumulateNew<K>(acc: seq<Bucket<K>>, k: K, a: real)
    requires k !in Keys(acc)
    ensures Accumulate(acc, k, a) == acc + [Bucket(k, a)]
  {
    if acc != [] {
      assert Keys(acc)[0] == acc[0].key;
      AccumulateNew(acc[1..], k, a);
      assert [acc[0]] + (acc[1..] + [Bucket(k, a)]) == acc + [Bucket(k, a)];
    }
  }

  /** When no two rows share a key, the reduce makes one bucket per row, in
      row order. */
  lemma {:induction false} GroupSumsDistinctKeys<T, K>(rows: seq<T>, key: T -> K, amount: T -> real)
    requires forall i, j :: 0 <= i < j < |rows| ==> key(rows[i]) != key(rows[j])
    ensures GroupSums(rows, key, amount)
         == seq(|rows|, i requires 0 <= i < |rows| => Bucket(key(rows[i]), amount(rows[i])))
  {
    if rows != [] {
      var pre := rows[..|rows| - 1];
      var last := rows[|rows| - 1];
      GroupSumsDistinctKeys(pre, key, amount);
      var g := GroupSums(pre, key, amount);
      assert k: key(last) !in Keys(g) by {
        forall i | 0 <= i < |g| ensures Keys(g)[i] != key(last) {
          assert Keys(g)[i] == key(rows[i]);
        }
      }
      AccumulateNew(g, key(last), amount(last));
    }
  }

  /** The amount under `j` after one step of the reduce. */
  lemma {:induction false} AccumulateLookup<K>(acc: seq<Bucket<K>>, k: K, a: real, j: K)
    ensures Lookup(Accumulate(acc, k, a), j) == Lookup(acc, j) + (if j == k then a else 0.0)
  {
    if acc != [] && acc[0].key != k {
      AccumulateLookup(acc[1..], k, a, j);
      assert Accumulate(acc, k, a)[1..] == Accumulate(acc[1..], k, a);
    } else if acc != [] {
      assert Accumulate(acc, k, a)[1..] == acc[1..];
    }
  }

  /** The total after one step of the reduce. */
  lemma {:induction false} AccumulateTotal<K>(acc: seq<Bucket<K>>, k: K, a: real)
    ensures Total(Accumulate(acc, k, a)) == Total(acc) + a
  {
    if acc != [] && acc[0].key != k {
      AccumulateTotal(acc[1..], k, a);
      assert Accumulate(acc, k, a)[1..] == Accumulate(acc[1..], k, a);
    } else if acc != [] {
      assert Accumulate(acc, k, a)[1..] == acc[1..];
    }
  }

  /** A key that is not in the dictionary reads as 0. */
  lemma {:induction false} LookupMissing<K>(b: seq<Bucket<K>>, k: K)
    requires k !in Keys(b)
    ensures Lookup(b, k) == 0.0
  {
    if b != [] {
      assert Keys(b[1..]) == Keys(b)[1..];
      LookupMissing(b[1..], k);
    }
  }

  /** The predicate "the key of `x` is `k`". */
  function KeyIs<T, K(==)>(key: T -> K, k: K): T -> bool
  {
    x => key(x) == k
  }

  /** `rows.reduce((acc, r) => { acc[key(r)] = (acc[key(r)] || 0) + amount(r); return acc }, {})`. */
  function GroupSums<T, K(==)>(rows: seq<T>, key: T -> K, amount: T -> real): seq<Bucket<K>>
  {
    if rows == [] then []
    else
      var last := rows[|rows| - 1];
      Accumulate(GroupSums(rows[..|rows| - 1], key, amount), key(last), amount(last))
  }

  /** The grouped dictionary has one bucket per distinct key of the rows. */
  lemma {:induction false} GroupSumsKeys<T, K>(rows: seq<T>, key: T -> K, amount: T -> real)
    ensures Distinct(Keys(GroupSums(rows, key, amount)))
    ensures forall k :: k in Keys(GroupSums(rows, key, amount)) <==> exists i :: 0 <= i < |rows| && key(rows[i]) == k
  {
    if rows != [] {
      var pre := rows[..|rows| - 1];
      var last := rows[|rows| - 1];
      GroupSumsKeys(pre, key, amount);
      var g := GroupSums(pre, key, amount);
      AccumulateSpec(g, key(last), amount(last));
      var ks := Keys(GroupSums(rows, key, amount));
      assert ks == if key(last) in Keys(g) then Keys(g) else Keys(g) + [key(last)];
      forall k ensures k in ks <==> exists i :: 0 <= i < |rows| && key(rows[i]) == k {
        if k in ks && k != key(last) {
          assert k in Keys(g);
          var i :| 0 <= i < |pre| && key(pre[i]) == k;
          assert rows[i] == pre[i];
        }
        if k in ks && k == key(last) {
          assert key(rows[|rows| - 1]) == k;
        }
        if exists i :: 0 <= i < |rows| && key(rows[i]) == k {
          var i :| 0 <= i < |rows| && key(rows[i]) == k;
          if i < |pre| {
            assert key(pre[i]) == k;
            assert k in Keys(g);
          }
        }
      }
    }
  }

  /** Each bucket holds the sum of the amounts of the rows with its key; a
      key no row has reads as 0. */
  lemma {:induction false} GroupSumsLookup<T, K>(rows: seq<T>, key: T -> K, amount: T -> real, k: K)
    ensures Distinct(Keys(GroupSums(rows, key, amount)))
    ensures Lookup(GroupSums(rows, key, amount), k) == SumOf(Filter(rows, KeyIs(key, k)), amount)
  {
    GroupSumsKeys(rows, key, amount);
    if rows != [] {
      var pre := rows[..|rows| - 1];
      var last := rows[|rows| - 1];
      GroupSumsLookup(pre, key, amount, k);
      var g := GroupSums(pre, key, amount);
      AccumulateSpec(g, key(last), amount(last));
      var f, f' := Filter(rows, KeyIs(key, k)), Filter(pre, KeyIs(key, k));
      if key(last) == k {
        assert f == f' + [last];
        assert f[..|f| - 1] == f';
      } else {
        assert f == f';
      }
    }
  }

  /** The buckets together hold the sum of all amounts. */
  lemma {:induction false} GroupSumsTotal<T, K>(rows: seq<T>, key: T -> K, amount: T -> real)
    ensures Distinct(Keys(GroupSums(rows, key, amount)))
    ensures Total(GroupSums(rows, key, amount)) == SumOf(rows, amount)
  {
    GroupSumsKeys(rows, key, amount);
    if rows != [] {
      var pre := rows[..|rows| - 1];
      var last := rows[|rows| - 1];
      GroupSumsTotal(pre, key, amount);
      AccumulateSpec(GroupSums(pre, key, amount), key(last), amount(last));
    }
  }

  /** A list without repetitions has as many elements as its set. */
  lemma {:induction false} DistinctCard<K>(s: seq<K>)
    requires Distinct(s)
    ensures |set x | x in s| == |s|
  {
    if s != [] {
      var rest := s[1..];
      assert Distinct(rest);
      DistinctCard(rest);
      assert s[0] !in rest;
      assert (set x | x in s) == (set x | x in rest) + {s[0]};
    }
  }

  /** The grouped dictionary has exactly as many buckets as there are
      distinct keys among the rows. */
  lemma GroupSumsCount<T, K(!new)>(rows: seq<T>, key: T -> K, amount: T -> real, used: set<K>)
    requires forall k :: k in used <==> exists i :: 0 <= i < |rows| && key(rows[i]) == k
    ensures |GroupSums(rows, key, amount)| == |used|
  {
    var ks := Keys(GroupSums(rows, key, amount));
    GroupSumsKeys(rows, key, amount);
    DistinctCard(ks);
    var present := set x | x in ks;
    assert present == used;
  }

  /** The position of the first row whose key is `k`, or `|rows|` when no
      row has that key. */
  function FirstIndex<T, K(==)>(rows: seq<T>, key: T -> K, k: K): (r: nat)
    ensures r <= |rows|
    ensures r < |rows| <==> exists i :: 0 <= i < |rows| && key(rows[i]) == k
    ensures r < |rows| ==> key(rows[r]) == k && forall i :: 0 <= i < r ==> key(rows[i]) != k
  {
    if rows == [] then 0
    else
      var pre := rows[..|rows| - 1];
      var f := FirstIndex(pre, key, k);
      assert forall i :: 0 <= i < |pre| ==> pre[i] == rows[i];
      if f < |pre| then f
      else if key(rows[|rows| - 1]) == k then |pre|
      else |rows|
  }

  /** The buckets come in the order in which their keys first occur among
      the rows: insertion order, not any sorting of the keys. */
  lemma {:induction false} GroupSumsOrder<T, K>(rows: seq<T>, key: T -> K, amount: T -> real)
    ensures forall i, j :: 0 <= i < j < |GroupSums(rows, key, amount)| ==>
      FirstIndex(rows, key, Keys(GroupSums(rows, key, amount))[i])
        < FirstIndex(rows, key, Keys(GroupSums(rows, key, amount))[j])
  {
    if rows != [] {
      var pre := rows[..|rows| - 1];
      var last := rows[|rows| - 1];
      GroupSumsOrder(pre, key, amount);
      GroupSumsKeys(pre, key, amount);
      var g := GroupSums(pre, key, amount);
      AccumulateKeyList(g, key(last), amount(last));
      var ks, ks' := Keys(GroupSums(rows, key, amount)), Keys(g);
      // Every key already present first occurs inside the prefix, at the same place.
      forall i | 0 <= i < |ks'|
        ensures FirstIndex(pre, key, ks'[i]) < |pre|
        ensures FirstIndex(rows, key, ks'[i]) == FirstIndex(pre, key, ks'[i])
      {
        assert ks'[i] in ks';
      }
      if key(last) !in ks' {
        assert FirstIndex(pre, key, key(last)) == |pre|;
        assert FirstIndex(rows, key, key(last)) == |pre|;
      }
      forall i, j | 0 <= i < j < |ks|
        ensures FirstIndex(rows, key, ks[i]) < FirstIndex(rows, key, ks[j])
      {
        assert ks[i] == ks'[i];
        if j < |ks'| {
          assert ks[j] == ks'[j];
        }
      }
    }
  }

  /** The reduce as the page runs it: a loop over the rows that updates the
      accumulator one row at a time. */
  method GroupSumsLoop<T, K(==)>(rows: seq<T>, key: T -> K, amount: T -> real) returns (acc: seq<Bucket<K>>)
    ensures acc == GroupSums(rows, key, amount)
  {
    acc := [];
    var i := 0;
    while i < |rows|
      invariant 0 <= i <= |rows|
      invariant acc == GroupSums(rows[..i], key, amount)
    {
      assert rows[..i + 1][..i] == rows[..i];
      acc := Accumulate(acc, key(rows[i]), amount(rows[i]));
      i := i + 1;
    }
    assert rows[..|rows|] == rows;
  }

  /** `list.slice(-n)`: the last `n` elements, or all of them when there are
      fewer; `slice(-0)` is `slice(0)`, the whole list. */
  function TakeLast<T>(s: seq<T>, n: nat): (r: seq<T>)
    ensures |r| == if n == 0 then |s| else Min(n, |s|)
    ensures r == s[|s| - |r|..]
  {
    if n == 0 || |s| <= n then s else s[|s| - n..]
  }
}
