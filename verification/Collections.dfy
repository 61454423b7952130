/** Sequences, stable ordering and key lookup: the vocabulary shared by the query model. */
module Collections {

  datatype Option<+T> = None | Some(value: T)

  /** The elements that satisfy `keep`, in order. */
  function Filter<T(!new)>(s: seq<T>, keep: T -> bool): (r: seq<T>)
    ensures |r| <= |s|
    ensures forall x :: x in r <==> x in s && keep(x)
  {
    if s == [] then []
    else
      var n := |s| - 1;
      assert s == s[..n] + [s[n]];
      Filter(s[..n], keep) + (if keep(s[n]) then [s[n]] else [])
  }

  lemma {:induction false} FilterAppend<T(!new)>(s: seq<T>, x: T, keep: T -> bool)
    ensures Filter(s + [x], keep) == Filter(s, keep) + (if keep(x) then [x] else [])
  {
    assert (s + [x])[..|s|] == s;
  }

  lemma {:induction false} FilterEmpty<T(!new)>(t: seq<T>, keep: T -> bool)
    requires t == []
    ensures Filter(t, keep) == []
  {
  }

  lemma {:induction false} FilterNone<T(!new)>(s: seq<T>, keep: T -> bool)
    requires forall x :: x in s ==> !keep(x)
    ensures Filter(s, keep) == []
  {
    if s != [] {
      var n := |s| - 1;
      FilterNone(s[..n], keep);
    }
  }

  lemma {:induction false} FilterCongruent<T(!new)>(s: seq<T>, p: T -> bool, q: T -> bool)
    requires forall x :: x in s ==> p(x) == q(x)
    ensures Filter(s, p) == Filter(s, q)
  {
    if s != [] {
      var n := |s| - 1;
      assert s == s[..n] + [s[n]];
      FilterCongruent(s[..n], p, q);
    }
  }

  /** Filtering by `q` and then by `p` filters by any `both` that is their conjunction on `s`. */
  lemma {:induction false} FilterFilter<T(!new)>(s: seq<T>, p: T -> bool, q: T -> bool, both: T -> bool)
    requires forall x :: x in s ==> both(x) == (q(x) && p(x))
    ensures Filter(Filter(s, q), p) == Filter(s, both)
  {
    if s != [] {
      var n := |s| - 1;
      assert s == s[..n] + [s[n]];
      FilterFilter(s[..n], p, q, both);
      if q(s[n]) {
        FilterAppend(Filter(s[..n], q), s[n], p);
      } else {
        assert Filter(s[..n], q) + [] == Filter(s[..n], q);
      }
    }
  }

  function Map<T, U>(s: seq<T>, f: T -> U): (r: seq<U>)
    ensures |r| == |s|
  {
    seq(|s|, i requires 0 <= i < |s| => f(s[i]))
  }

  lemma {:induction false} MapAppend<T, U>(s: seq<T>, x: T, f: T -> U)
    ensures Map(s + [x], f) == Map(s, f) + [f(x)]
  {
  }

  /** No two elements share a key. */
  ghost predicate Unique<T(!new)>(s: seq<T>, key: T -> int) {
    forall i, j :: 0 <= i < j < |s| ==> key(s[i]) != key(s[j])
  }

  lemma {:induction false} FilterUnique<T(!new)>(s: seq<T>, keep: T -> bool, key: T -> int)
    requires Unique(s, key)
    ensures Unique(Filter(s, keep), key)
  {
    if s != [] {
      var n := |s| - 1;
      FilterUnique(s[..n], keep, key);
      var f := Filter(s[..n], keep);
      forall i | 0 <= i < |f| ensures key(f[i]) != key(s[n]) {
        assert f[i] in f;
        var j :| 0 <= j < n && s[j] == f[i];
      }
    }
  }

  // ORDER BY: a stable insertion sort by rank.

  function Insert<T(!new)>(s: seq<T>, x: T, rank: T -> int): (r: seq<T>)
    ensures |r| == |s| + 1
  {
    if s == [] || rank(s[|s| - 1]) <= rank(x) then s + [x]
    else
      var n := |s| - 1;
      Insert(s[..n], x, rank) + [s[n]]
  }

  lemma {:induction false} InsertMember<T(!new)>(s: seq<T>, x: T, rank: T -> int, y: T)
    ensures y in Insert(s, x, rank) <==> y in s || y == x
  {
    if s != [] {
      var n := |s| - 1;
      assert s == s[..n] + [s[n]];
      InsertMember(s[..n], x, rank, y);
    }
  }

  function SortBy<T(!new)>(s: seq<T>, rank: T -> int): (r: seq<T>)
    ensures |r| == |s|
  {
    if s == [] then []
    else
      var n := |s| - 1;
      Insert(SortBy(s[..n], rank), s[n], rank)
  }

  lemma {:induction false} SortByMember<T(!new)>(s: seq<T>, rank: T -> int, y: T)
    ensures y in SortBy(s, rank) <==> y in s
  {
    if s != [] {
      var n := |s| - 1;
      assert s == s[..n] + [s[n]];
      SortByMember(s[..n], rank, y);
      InsertMember(SortBy(s[..n], rank), s[n], rank, y);
    }
  }

  ghost predicate SortedBy<T(!new)>(s: seq<T>, rank: T -> int) {
    forall i, j :: 0 <= i < j < |s| ==> rank(s[i]) <= rank(s[j])
  }

  lemma {:induction false} InsertSorted<T(!new)>(s: seq<T>, x: T, rank: T -> int)
    requires SortedBy(s, rank)
    ensures SortedBy(Insert(s, x, rank), rank)
  {
    if s != [] && rank(s[|s| - 1]) > rank(x) {
      var n := |s| - 1;
      InsertSorted(s[..n], x, rank);
      var r := Insert(s[..n], x, rank);
      forall i | 0 <= i < |r| ensures rank(r[i]) <= rank(s[n]) {
        assert r[i] in r;
        InsertMember(s[..n], x, rank, r[i]);
      }
    }
  }

  lemma {:induction false} SortBySorted<T(!new)>(s: seq<T>, rank: T -> int)
    ensures SortedBy(SortBy(s, rank), rank)
  {
    if s != [] {
      var n := |s| - 1;
      SortBySorted(s[..n], rank);
      InsertSorted(SortBy(s[..n], rank), s[n], rank);
    }
  }

  lemma {:induction false} InsertUnique<T(!new)>(s: seq<T>, x: T, rank: T -> int, key: T -> int)
    requires Unique(s, key)
    requires forall y :: y in s ==> key(y) != key(x)
    ensures Unique(Insert(s, x, rank), key)
  {
    if s != [] && rank(s[|s| - 1]) > rank(x) {
      var n := |s| - 1;
      InsertUnique(s[..n], x, rank, key);
      var r := Insert(s[..n], x, rank);
      forall i | 0 <= i < |r| ensures key(r[i]) != key(s[n]) {
        assert r[i] in r;
        InsertMember(s[..n], x, rank, r[i]);
      }
    }
  }

  lemma {:induction false} SortByUnique<T(!new)>(s: seq<T>, rank: T -> int, key: T -> int)
    requires Unique(s, key)
    ensures Unique(SortBy(s, rank), key)
  {
    if s != [] {
      var n := |s| - 1;
      SortByUnique(s[..n], rank, key);
      forall y | y in SortBy(s[..n], rank) ensures key(y) != key(s[n]) {
        SortByMember(s[..n], rank, y);
      }
      InsertUnique(SortBy(s[..n], rank), s[n], rank, key);
    }
  }

  lemma {:induction false} FilterInsert<T(!new)>(s: seq<T>, x: T, rank: T -> int, keep: T -> bool)
    requires SortedBy(s, rank)
    ensures Filter(Insert(s, x, rank), keep)
         == if keep(x) then Insert(Filter(s, keep), x, rank) else Filter(s, keep)
    decreases |s|, 1
  {
    hide Filter;
    if s == [] || rank(s[|s| - 1]) <= rank(x) {
      FilterAppend(s, x, keep);
      var f := Filter(s, keep);
      assert f != [] ==> f[|f| - 1] in s;
    } else {
      FilterInsertBefore(s[..|s| - 1], s[|s| - 1], x, rank, keep);
      assert s == s[..|s| - 1] + [s[|s| - 1]];
    }
  }

  lemma {:induction false} FilterInsertBefore<T(!new)>(s: seq<T>, last: T, x: T, rank: T -> int, keep: T -> bool)
    requires SortedBy(s, rank) && rank(last) > rank(x)
    ensures Filter(Insert(s, x, rank) + [last], keep)
         == if keep(x) then Insert(Filter(s + [last], keep), x, rank) else Filter(s + [last], keep)
    decreases |s|, 2
  {
    var f, g := Filter(s, keep), Filter(Insert(s, x, rank), keep);
    FilterInsert(s, x, rank, keep);
    FilterAppend(Insert(s, x, rank), last, keep);
    FilterAppend(s, last, keep);
    if keep(last) {
      InsertBeforeLast(f, last, x, rank);
    } else {
      assert f + [] == f && g + [] == g;
    }
  }

  lemma {:induction false} InsertBeforeLast<T(!new)>(s: seq<T>, last: T, x: T, rank: T -> int)
    requires rank(last) > rank(x)
    ensures Insert(s + [last], x, rank) == Insert(s, x, rank) + [last]
  {
    assert (s + [last])[..|s|] == s;
  }

  /** WHERE commutes with a stable ORDER BY. */
  lemma {:induction false} FilterSortBy<T(!new)>(s: seq<T>, rank: T -> int, keep: T -> bool)
    ensures Filter(SortBy(s, rank), keep) == SortBy(Filter(s, keep), rank)
  {
    if s != [] {
      var n := |s| - 1;
      FilterSortBy(s[..n], rank, keep);
      SortBySorted(s[..n], rank);
      FilterInsert(SortBy(s[..n], rank), s[n], rank, keep);
      var f := Filter(s[..n], keep);
      if keep(s[n]) {
        assert (f + [s[n]])[..|f|] == f;
      } else {
        assert f + [] == f;
      }
    }
  }

  /** OFFSET and LIMIT. */
  function Window<T>(s: seq<T>, limit: Option<nat>, offset: Option<nat>): (r: seq<T>)
    ensures |r| <= |s|
    ensures forall x :: x in r ==> x in s
    ensures limit.None? && offset.None? ==> r == s
  {
    var from := if offset.Some? then (if offset.value < |s| then offset.value else |s|) else 0;
    var rest := s[from..];
    if limit.Some? && limit.value < |rest| then rest[..limit.value] else rest
  }

  // Lookup in parallel sequences of optional keys and values.

  /** The values filed under `k`, in order. */
  ghost function Pick<T>(keys: seq<Option<int>>, vals: seq<T>, k: int): (r: seq<T>)
    requires |keys| == |vals|
    ensures |r| <= |vals|
    ensures forall x :: x in r ==> x in vals
  {
    if keys == [] then []
    else
      var n := |keys| - 1;
      Pick(keys[..n], vals[..n], k) + (if keys[n] == Some(k) then [vals[n]] else [])
  }

  /** The last value filed under `k`. */
  ghost function PickLast<T>(keys: seq<Option<int>>, vals: seq<T>, k: int): (r: Option<T>)
    requires |keys| == |vals|
    ensures r.Some? <==> Some(k) in keys
    ensures r.Some? ==> r.value in vals
  {
    if keys == [] then None
    else
      var n := |keys| - 1;
      assert keys == keys[..n] + [keys[n]];
      if keys[n] == Some(k) then Some(vals[n]) else PickLast(keys[..n], vals[..n], k)
  }

  ghost function LastOf<T>(s: seq<T>): Option<T> {
    if s == [] then None else Some(s[|s| - 1])
  }

  /** Many-to-one lookup keeps the last of the values one-to-many lookup lists. */
  lemma {:induction false} PickLastOfPick<T>(keys: seq<Option<int>>, vals: seq<T>, k: int)
    requires |keys| == |vals|
    ensures PickLast(keys, vals, k) == LastOf(Pick(keys, vals, k))
  {
    if keys != [] {
      var n := |keys| - 1;
      PickLastOfPick(keys[..n], vals[..n], k);
    }
  }

  /** The keys that occur, without duplicates, in order of first occurrence. */
  ghost function DistinctKeys(keys: seq<Option<int>>): (ids: seq<int>)
    ensures forall k :: k in ids <==> Some(k) in keys
    ensures forall i, j :: 0 <= i < j < |ids| ==> ids[i] != ids[j]
  {
    if keys == [] then []
    else
      var n := |keys| - 1;
      assert keys == keys[..n] + [keys[n]];
      var ids := DistinctKeys(keys[..n]);
      if keys[n].None? || keys[n].value in ids then ids else ids + [keys[n].value]
  }

  /** Whether position `i` is the last one to hold its identifier. */
  ghost predicate LastHolder(ids: seq<int>, i: nat)
    requires i < |ids|
  {
    forall j :: i < j < |ids| ==> ids[j] != ids[i]
  }
}
