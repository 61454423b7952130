/** What a selection answers, said of positions in the table: no filter, no sort. */
module Selections {
  import opened Collections

  /** Position `p` comes before position `q`: by rank, ties in table order. */
  predicate Before<T(!new)>(table: seq<T>, rank: T -> int, p: nat, q: nat)
    requires p < |table| && q < |table|
  {
    rank(table[p]) < rank(table[q]) || (rank(table[p]) == rank(table[q]) && p < q)
  }

  ghost predicate Ascending<T(!new)>(table: seq<T>, rank: T -> int, at: seq<nat>) {
    && (forall i :: 0 <= i < |at| ==> at[i] < |table|)
    && (forall i, j :: 0 <= i < j < |at| ==> Before(table, rank, at[i], at[j]))
  }

  /**
   * `rows` are the rows of the table that satisfy `keep`, each as often as it stands there, by rank
   * and with ties in table order; `at` are their positions.
   */
  ghost predicate InOrder<T(!new)>(table: seq<T>, keep: T -> bool, rank: T -> int, at: seq<nat>, rows: seq<T>) {
    && Ascending(table, rank, at)
    && (forall p: nat :: p in at <==> p < |table| && keep(table[p]))
    && |rows| == |at|
    && (forall i :: 0 <= i < |at| ==> rows[i] == table[at[i]])
  }

  /** `part` is what is left of `full` after skipping `offset` rows and stopping after `limit` more. */
  ghost predicate Cut<T>(full: seq<T>, limit: Option<nat>, offset: Option<nat>, part: seq<T>) {
    var skipped := if offset.Some? then offset.value else 0;
    && (limit.Some? ==> |part| <= limit.value)
    && (part != [] ==> skipped + |part| <= |full|)
    && (skipped + |part| < |full| ==> limit == Some(|part|))
    && (forall i :: 0 <= i < |part| && skipped + i < |full| ==> part[i] == full[skipped + i])
  }

  /** `rows` answer a query with these clauses. */
  ghost predicate Answers<T(!new)>(table: seq<T>, keep: T -> bool, rank: T -> int, limit: Option<nat>,
                                   offset: Option<nat>, rows: seq<T>)
  {
    exists at, full :: InOrder(table, keep, rank, at, full) && Cut(full, limit, offset, rows)
  }

  // ---- The answer exists ----

  lemma {:induction false} InsertAscending<T(!new)>(table: seq<T>, rank: T -> int, at: seq<nat>, rows: seq<T>, n: nat)
    returns (at': seq<nat>)
    requires Ascending(table, rank, at) && |rows| == |at| && n < |table|
    requires forall i :: 0 <= i < |at| ==> at[i] < n && rows[i] == table[at[i]]
    ensures Ascending(table, rank, at') && |at'| == |at| + 1
    ensures forall p :: p in at' <==> p in at || p == n
    ensures var rows' := Insert(rows, table[n], rank);
      |rows'| == |at'| && forall i :: 0 <= i < |at'| ==> rows'[i] == table[at'[i]]
  {
    var m := |at| - 1;
    if at == [] || rank(rows[m]) <= rank(table[n]) {
      at' := at + [n];
    } else {
      var before := InsertAscending(table, rank, at[..m], rows[..m], n);
      at' := before + [at[m]];
      assert at == at[..m] + [at[m]];
      forall i | 0 <= i < |before| ensures Before(table, rank, before[i], at[m]) {
        assert before[i] in before;
        if before[i] != n {
          var j :| 0 <= j < m && at[..m][j] == before[i];
          assert at[j] == before[i];
        }
      }
    }
  }

  lemma {:induction false} SortedPositions<T(!new)>(table: seq<T>, keep: T -> bool, rank: T -> int)
    returns (at: seq<nat>)
    ensures InOrder(table, keep, rank, at, SortBy(Filter(table, keep), rank))
    decreases |table|
  {
    hide *;
    if table == [] {
      at := [];
      NothingInOrder(table, keep, rank);
    } else {
      var n := |table| - 1;
      var before := SortedPositions(table[..n], keep, rank);
      at := NextPosition(table[..n], table[n], keep, rank, before);
      assert table == table[..n] + [table[n]];
    }
  }

  lemma {:induction false} NothingInOrder<T(!new)>(table: seq<T>, keep: T -> bool, rank: T -> int)
    requires table == []
    ensures InOrder(table, keep, rank, [], SortBy(Filter(table, keep), rank))
  {
  }

  lemma {:induction false} NextPosition<T(!new)>(front: seq<T>, x: T, keep: T -> bool, rank: T -> int, before: seq<nat>)
    returns (at: seq<nat>)
    requires InOrder(front, keep, rank, before, SortBy(Filter(front, keep), rank))
    ensures InOrder(front + [x], keep, rank, at, SortBy(Filter(front + [x], keep), rank))
  {
    hide Before, Filter, Insert;
    var table, n, f := front + [x], |front|, Filter(front, keep);
    FilterAppend(front, x, keep);
    LongerTable(front, x, rank, before);
    if keep(x) {
      assert (f + [x])[..|f|] == f;
      at := InsertAscending(table, rank, before, SortBy(f, rank), n);
    } else {
      at := before;
      assert f + [] == f;
    }
  }

  lemma {:induction false} LongerTable<T(!new)>(front: seq<T>, x: T, rank: T -> int, at: seq<nat>)
    requires Ascending(front, rank, at)
    ensures Ascending(front + [x], rank, at)
  {
  }

  lemma {:induction false} WindowCuts<T>(full: seq<T>, limit: Option<nat>, offset: Option<nat>)
    ensures Cut(full, limit, offset, Window(full, limit, offset))
  {
  }

  // ---- The answer is unique ----

  ghost predicate SamePositions(a: seq<nat>, b: seq<nat>) {
    forall p: nat :: p in a <==> p in b
  }

  lemma {:induction false} OneOrder<T(!new)>(table: seq<T>, rank: T -> int, a: seq<nat>, b: seq<nat>)
    requires Ascending(table, rank, a) && Ascending(table, rank, b) && SamePositions(a, b)
    ensures a == b
  {
    hide Before, SamePositions;
    if b != [] {
      HasPosition(b, a);
    }
    if a != [] {
      HasPosition(a, b);
      var m, n := |a| - 1, |b| - 1;
      OneLast(table, rank, a, b);
      assert a == a[..m] + [a[m]] && b == b[..n] + [a[m]];
      FrontPositions(a[..m], a[m], b[..n]) by {
        SelfBefore(table, rank, a);
        SelfBefore(table, rank, b);
      }
      OneOrder(table, rank, a[..m], b[..n]);
    }
  }

  lemma {:induction false} HasPosition(a: seq<nat>, b: seq<nat>)
    requires (SamePositions(a, b) || SamePositions(b, a)) && a != []
    ensures b != []
  {
    assert a[0] in b;
  }

  lemma {:induction false} SelfBefore<T(!new)>(table: seq<T>, rank: T -> int, at: seq<nat>)
    requires Ascending(table, rank, at) && at != []
    ensures at[|at| - 1] !in at[..|at| - 1]
  {
  }

  lemma {:induction false} OneLast<T(!new)>(table: seq<T>, rank: T -> int, a: seq<nat>, b: seq<nat>)
    requires Ascending(table, rank, a) && Ascending(table, rank, b) && SamePositions(a, b) && a != [] && b != []
    ensures a[|a| - 1] == b[|b| - 1]
  {
    var m, n := |a| - 1, |b| - 1;
    assert a[m] in b && b[n] in a;
    var i :| 0 <= i < |b| && b[i] == a[m];
    var j :| 0 <= j < |a| && a[j] == b[n];
    if i < n && j < m {
      assert false;
    }
  }

  lemma {:induction false} FrontPositions(a: seq<nat>, x: nat, b: seq<nat>)
    requires SamePositions(a + [x], b + [x]) && x !in a && x !in b
    ensures SamePositions(a, b)
  {
    forall p: nat ensures p in a <==> p in b {
      assert p in a + [x] <==> p in a || p == x;
      assert p in b + [x] <==> p in b || p == x;
    }
  }

  lemma {:induction false} OneCut<T>(full: seq<T>, limit: Option<nat>, offset: Option<nat>, r: seq<T>, s: seq<T>)
    requires Cut(full, limit, offset, r) && Cut(full, limit, offset, s)
    ensures r == s
  {
  }

  /** The clauses leave one answer, and the selection finds it. */
  lemma {:induction false} SelectionExactly<T(!new)>(table: seq<T>, keep: T -> bool, rank: T -> int,
                                                     limit: Option<nat>, offset: Option<nat>, rows: seq<T>)
    ensures rows == Window(SortBy(Filter(table, keep), rank), limit, offset)
       <==> Answers(table, keep, rank, limit, offset, rows)
  {
    hide Filter, SortBy, Window, Cut;
    var full := SortBy(Filter(table, keep), rank);
    var at := SortedPositions(table, keep, rank);
    WindowCuts(full, limit, offset);
    if Answers(table, keep, rank, limit, offset, rows) {
      var at', full' :| InOrder(table, keep, rank, at', full') && Cut(full', limit, offset, rows);
      assert SamePositions(at, at');
      OneOrder(table, rank, at, at');
      assert full == full';
      OneCut(full, limit, offset, rows, Window(full, limit, offset));
    }
  }

  /** Only what `keep` and `rank` say of the rows of the table matters. */
  lemma {:induction false} AnswersAlike<T(!new)>(table: seq<T>, keep: T -> bool, other: T -> bool, rank: T -> int,
                                                 limit: Option<nat>, offset: Option<nat>, rows: seq<T>)
    requires forall x :: x in table ==> keep(x) == other(x)
    requires Answers(table, keep, rank, limit, offset, rows)
    ensures Answers(table, other, rank, limit, offset, rows)
  {
    hide Cut, Ascending;
    var at, full :| InOrder(table, keep, rank, at, full) && Cut(full, limit, offset, rows);
    assert InOrder(table, other, rank, at, full);
  }
}
