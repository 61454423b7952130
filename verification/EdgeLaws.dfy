/** Laws of eager loading on one snapshot. */
module EdgeLaws {
  import opened Collections
  import opened Schema
  import opened QueryModel
  import opened JoinTheorem

  /** What a whole eager query returns is the per-row join of its root rows. */
  lemma {:induction false} EagerIsNaive(db: Database, q: AccountQ)
    requires db.Keyed() && Unwindowed(q.edges)
    ensures Batch(db, q.edges, q.fields, AccountRows(db, q)) == NaiveForest(db, q.edges, q.fields, AccountRows(db, q))
  {
    SelectUnique(db.accounts, Keeps(q.predicates), q.order, q.limit, q.offset, (r: AccountRow) => r.id);
    BatchIsNaive(db, q.edges, q.fields, AccountRows(db, q));
  }

  // ---- Running a query tree again ----

  /** No groups edge anywhere: the only loader whose rewriting of the selector cannot be repeated. */
  ghost predicate Groupless(e: AccountEdges)
    decreases e
  {
    && e.withGroups.None?
    && (e.withParent.Some? ==> Groupless(e.withParent.value.edges))
    && (e.withChildren.Some? ==> Groupless(e.withChildren.value.edges))
    && (e.withAccountGroups.Some? && e.withAccountGroups.value.edges.withAccount.Some? ==>
          Groupless(e.withAccountGroups.value.edges.withAccount.value.edges))
  }

  lemma {:induction false} SameRows<T(!new)>(table: seq<T>, p: T -> bool, q: T -> bool, order: T -> int,
                                             limit: Option<nat>, offset: Option<nat>)
    requires forall x :: x in table ==> p(x) == q(x)
    ensures Select(table, p, order, limit, offset) == Select(table, q, order, limit, offset)
  {
    FilterCongruent(table, p, q);
  }

  lemma {:induction false} RerunRows(db: Database, q: AccountQ, p: AccountPredicate, r: AccountRow)
    ensures AllHold(q.predicates + [p] + [p], r) == AllHold(q.predicates + [p], r)
  {
    AllHoldAppend(q.predicates + [p], p, r);
    AllHoldAppend(q.predicates, p, r);
  }

  lemma {:induction false} AccountEdgeRerun(db: Database, edge: Option<AccountQ>, keys: seq<Option<int>>)
    requires edge.Some? ==> Groupless(edge.value.edges)
    ensures AccountEdge(db, NarrowedAccount(db, edge, keys), keys) == AccountEdge(db, edge, keys)
    decreases edge
  {
    var ids := DistinctKeys(keys);
    if edge.Some? && ids != [] {
      var q := edge.value;
      var q' := NarrowAccount(db, q, keys);
      var rows := AccountRows(db, OfIDs(q, ids));
      forall r | r in db.accounts ensures Keeps(OfIDs(q', ids).predicates)(r) == Keeps(OfIDs(q, ids).predicates)(r) {
        RerunRows(db, q, AccountIDIn(ids), r);
      }
      SameRows(db.accounts, Keeps(OfIDs(q', ids).predicates), Keeps(OfIDs(q, ids).predicates), q.order, q.limit,
               q.offset);
      RerunAgrees(db, q.edges, q.fields, rows);
    }
  }

  lemma {:induction false} ChildrenEdgeRerun(db: Database, edge: Option<AccountQ>, ids: seq<int>)
    requires edge.Some? ==> Groupless(edge.value.edges)
    ensures ChildrenEdge(db, NarrowedChildren(db, edge, ids), ids) == ChildrenEdge(db, edge, ids)
    decreases edge
  {
    if edge.Some? {
      var q := edge.value;
      var q' := NarrowChildren(db, q, ids);
      var rows := AccountRows(db, OfParents(q, ids));
      forall r | r in db.accounts
        ensures Keeps(OfParents(q', ids).predicates)(r) == Keeps(OfParents(q, ids).predicates)(r)
      {
        RerunRows(db, q, ParentIn(ids), r);
      }
      SameRows(db.accounts, Keeps(OfParents(q', ids).predicates), Keeps(OfParents(q, ids).predicates), q.order,
               q.limit, q.offset);
      RerunAgrees(db, q.edges, OfParents(q, ids).fields, rows);
    }
  }

  lemma {:induction false} ProxyEdgeRerun(db: Database, edge: Option<ProxyQ>, keys: seq<Option<int>>)
    ensures ProxyEdge(db, NarrowedProxy(edge, keys), keys) == ProxyEdge(db, edge, keys)
  {
    var ids := DistinctKeys(keys);
    if edge.Some? && ids != [] {
      var q := edge.value;
      var once, twice := OfProxies(q, ids), OfProxies(OfProxies(q, ids), ids);
      forall r ensures AllProxyHold(twice.predicates, r) == AllProxyHold(once.predicates, r) {
        assert forall i :: 0 <= i < |once.predicates| ==> twice.predicates[i] == once.predicates[i];
        assert twice.predicates[|once.predicates|] == once.predicates[|q.predicates|] == ProxyIDIn(ids);
      }
      SameRows(db.proxies, KeepsProxy(twice.predicates), KeepsProxy(once.predicates), q.order, q.limit, q.offset);
    }
  }

  lemma {:induction false} LinkGroupEdgeRerun(db: Database, edge: Option<GroupQ>, keys: seq<Option<int>>)
    ensures LinkGroupEdge(db, NarrowedLinkGroup(edge, keys), keys) == LinkGroupEdge(db, edge, keys)
  {
    var ids := DistinctKeys(keys);
    if edge.Some? && ids != [] {
      var q := edge.value;
      var once, twice := OfGroups(q, ids), OfGroups(OfGroups(q, ids), ids);
      forall r ensures AllGroupHold(twice.predicates, r) == AllGroupHold(once.predicates, r) {
        assert forall i :: 0 <= i < |once.predicates| ==> twice.predicates[i] == once.predicates[i];
        assert twice.predicates[|once.predicates|] == once.predicates[|q.predicates|] == GroupIDIn(ids);
      }
      SameRows(db.groups, KeepsGroup(twice.predicates), KeepsGroup(once.predicates), q.order, q.limit, q.offset);
    }
  }

  lemma {:induction false} LinksEdgeRerun(db: Database, edge: Option<AccountGroupQ>, ids: seq<int>)
    requires edge.Some? && edge.value.edges.withAccount.Some? ==> Groupless(edge.value.edges.withAccount.value.edges)
    ensures AccountGroupsEdge(db, NarrowedLinks(db, edge, ids), ids) == AccountGroupsEdge(db, edge, ids)
    decreases edge
  {
    if edge.Some? {
      var q := edge.value;
      var q' := NarrowLinks(db, q, ids);
      var once, twice := OfAccounts(q, ids), OfAccounts(q', ids);
      forall r ensures AllAccountGroupHold(twice.predicates, r) == AllAccountGroupHold(once.predicates, r) {
        assert forall i :: 0 <= i < |once.predicates| ==> twice.predicates[i] == once.predicates[i];
        assert twice.predicates[|once.predicates|] == once.predicates[|q.predicates|] == AccountGroupAccountIn(ids);
      }
      SameRows(db.accountGroups, KeepsLink(twice.predicates), KeepsLink(once.predicates), q.order, q.limit, q.offset);
      LinkRerunAgrees(db, q.edges, once.fields, AccountGroupRows(db, once));
    }
  }

  lemma {:induction false} LinkRerunAgrees(db: Database, e: AccountGroupEdges, fields: seq<AccountGroupColumn>,
                                           rows: seq<AccountGroupRow>)
    requires e.withAccount.Some? ==> Groupless(e.withAccount.value.edges)
    ensures LinkBatch(db, NarrowLinkEdges(db, e, rows), fields, rows) == LinkBatch(db, e, fields, rows)
    decreases e
  {
    AccountEdgeRerun(db, e.withAccount, LinkAccountKeys(rows));
    LinkGroupEdgeRerun(db, e.withGroup, LinkGroupKeys(rows));
  }

  /**
   * The loaders narrow the sub-queries in place, yet running the narrowed tree on the same rows
   * builds the same trees: with limits and offsets too.
   */
  lemma {:induction false} RerunAgrees(db: Database, e: AccountEdges, fields: seq<Column>, rows: seq<AccountRow>)
    requires Groupless(e)
    ensures Batch(db, NarrowEdges(db, e, rows), fields, rows) == Batch(db, e, fields, rows)
    decreases e
  {
    if rows != [] {
      ProxyEdgeRerun(db, e.withProxy, ProxyKeys(rows));
      AccountEdgeRerun(db, e.withParent, ParentKeys(rows));
      ChildrenEdgeRerun(db, e.withChildren, AccountIDs(rows));
      LinksEdgeRerun(db, e.withAccountGroups, AccountIDs(rows));
      var n := NarrowEdges(db, e, rows);
      assert ColumnsOf(fields, n) == ColumnsOf(fields, e) && LoadedEdges(n) == LoadedEdges(e);
    }
  }

  /** A run leaves a tree without groups edges so that it can be run again. */
  lemma {:induction false} NarrowedRunsAgain(db: Database, e: AccountEdges, rows: seq<AccountRow>)
    requires Groupless(e) && Unjoined(e)
    ensures Groupless(NarrowEdges(db, e, rows)) && Unjoined(NarrowEdges(db, e, rows))
    decreases e, 1
  {
    hide NarrowAccount, NarrowChildren, NarrowLinks, NarrowProxy;
    if rows != [] {
      if e.withParent.Some? {
        NarrowedAccountRunsAgain(db, e.withParent.value, ParentKeys(rows));
      }
      if e.withChildren.Some? {
        NarrowedChildrenRunsAgain(db, e.withChildren.value, AccountIDs(rows));
      }
      if e.withAccountGroups.Some? {
        NarrowedLinksRunsAgain(db, e.withAccountGroups.value, AccountIDs(rows));
      }
    }
  }

  lemma {:induction false} NarrowedAccountRunsAgain(db: Database, q: AccountQ, keys: seq<Option<int>>)
    requires Groupless(q.edges) && Unjoined(q.edges)
    ensures Groupless(NarrowAccount(db, q, keys).edges) && Unjoined(NarrowAccount(db, q, keys).edges)
    decreases q
  {
    hide Groupless, Unjoined, NarrowEdges;
    var ids := DistinctKeys(keys);
    if ids != [] {
      NarrowedRunsAgain(db, q.edges, AccountRows(db, OfIDs(q, ids)));
    }
  }

  lemma {:induction false} NarrowedChildrenRunsAgain(db: Database, q: AccountQ, ids: seq<int>)
    requires Groupless(q.edges) && Unjoined(q.edges)
    ensures Groupless(NarrowChildren(db, q, ids).edges) && Unjoined(NarrowChildren(db, q, ids).edges)
    decreases q
  {
    hide Groupless, Unjoined, NarrowEdges;
    NarrowedRunsAgain(db, q.edges, AccountRows(db, OfParents(q, ids)));
  }

  ghost predicate GrouplessLinks(e: AccountGroupEdges) {
    e.withAccount.Some? ==> Groupless(e.withAccount.value.edges)
  }

  lemma {:induction false} NarrowedLinksRunsAgain(db: Database, q: AccountGroupQ, ids: seq<int>)
    requires GrouplessLinks(q.edges) && UnjoinedLinks(q.edges)
    ensures GrouplessLinks(NarrowLinks(db, q, ids).edges) && UnjoinedLinks(NarrowLinks(db, q, ids).edges)
    decreases q
  {
    hide Groupless, Unjoined, NarrowAccount;
    var links := AccountGroupRows(db, OfAccounts(q, ids));
    var narrowed := NarrowLinkEdges(db, q.edges, links);
    assert NarrowLinks(db, q, ids).edges == narrowed;
    if links != [] {
      assert narrowed.withAccount == NarrowedAccount(db, q.edges.withAccount, LinkAccountKeys(links));
      if q.edges.withAccount.Some? {
        NarrowedAccountRunsAgain(db, q.edges.withAccount.value, LinkAccountKeys(links));
        assert narrowed.withAccount == Some(NarrowAccount(db, q.edges.withAccount.value, LinkAccountKeys(links)));
      }
      assert GrouplessLinks(narrowed);
      assert UnjoinedLinks(narrowed);
    }
  }

  // ---- Limits below the root ----

  lemma {:induction false} FilterConcat<T(!new)>(s: seq<T>, t: seq<T>, keep: T -> bool)
    ensures Filter(s + t, keep) == Filter(s, keep) + Filter(t, keep)
  {
    hide Filter;
    if t == [] {
      assert s + t == s;
      FilterEmpty(t, keep);
    } else {
      var n := |t| - 1;
      var tail := if keep(t[n]) then [t[n]] else [];
      FilterConcat(s, t[..n], keep);
      FilterAppend(s + t[..n], t[n], keep);
      FilterAppend(t[..n], t[n], keep);
      assert s + t == (s + t[..n]) + [t[n]] && t == t[..n] + [t[n]];
      assert Filter(s, keep) + Filter(t[..n], keep) + tail == Filter(s, keep) + (Filter(t[..n], keep) + tail);
    }
  }

  lemma {:induction false} FilterFull<T(!new)>(s: seq<T>, keep: T -> bool)
    requires |Filter(s, keep)| == |s|
    ensures forall x :: x in s ==> keep(x)
  {
    if s != [] {
      var n := |s| - 1;
      FilterFull(s[..n], keep);
      assert s == s[..n] + [s[n]];
    }
  }

  function Take<T>(s: seq<T>, n: nat): seq<T> {
    if n < |s| then s[..n] else s
  }

  /** Cutting the batch and then filtering keeps what filtering and then cutting keeps. */
  ghost predicate CutAgrees<T(!new)>(s: seq<T>, n: nat, keep: T -> bool) {
    |Filter(Take(s, n), keep)| == |Take(Filter(s, keep), n)|
  }

  lemma {:induction false} CutIsPrefix<T(!new)>(s: seq<T>, n: nat, keep: T -> bool)
    ensures |Filter(Take(s, n), keep)| <= |Take(Filter(s, keep), n)|
    ensures CutAgrees(s, n, keep) <==> Filter(Take(s, n), keep) == Take(Filter(s, keep), n)
  {
    hide Filter;
    if n < |s| {
      var front, back := Filter(s[..n], keep), Filter(s[n..], keep);
      FilterConcat(s[..n], s[n..], keep);
      assert s == s[..n] + s[n..];
      assert Filter(s, keep) == front + back && |front| <= n;
      assert Take(s, n) == s[..n];
      PrefixOfTake(front, back, n);
    }
  }

  lemma {:induction false} PrefixOfTake<T>(front: seq<T>, back: seq<T>, n: nat)
    requires |front| <= n
    ensures |front| <= |Take(front + back, n)|
    ensures |front| == |Take(front + back, n)| ==> front == Take(front + back, n)
  {
    assert (front + back)[..|front|] == front;
  }

  lemma {:induction false} CutLength<T(!new)>(s: seq<T>, n: nat, keep: T -> bool)
    requires n < |s|
    ensures |Filter(s, keep)| == |Filter(s[..n], keep)| + |Filter(s[n..], keep)|
  {
    FilterConcat(s[..n], s[n..], keep);
    assert s == s[..n] + s[n..];
  }

  lemma {:induction false} FilterPositive<T(!new)>(s: seq<T>, keep: T -> bool, x: T)
    requires x in s && keep(x)
    ensures |Filter(s, keep)| > 0
  {
    assert x in Filter(s, keep);
  }

  /** Of the classes that occur past the cut, some loses a row unless one class has all the rows. */
  lemma {:induction false} CutLoses<T(!new)>(s: seq<T>, n: nat, first: T -> bool, other: T -> bool, x: T)
    requires 0 < n < |s| && first(s[n]) && x in s && other(x)
    requires forall y :: y in s && other(y) ==> !first(y)
    ensures !CutAgrees(s, n, first) || !CutAgrees(s, n, other)
  {
    hide Filter;
    CutLength(s, n, first);
    CutLength(s, n, other);
    FilterPositive(s[n..], first, s[n]);
    if |Filter(s[..n], first)| == n {
      FilterFull(s[..n], first);
      FilterNone(s[..n], other);
      FilterPositive(s[n..], other, x) by {
        assert s == s[..n] + s[n..];
      }
    }
  }

  /** The rows a limited children query would yield without its limit. */
  ghost function AllChildRows(db: Database, q: AccountQ, ids: seq<int>): seq<AccountRow> {
    AccountRows(db, OfParents(q.(limit := None), ids))
  }

  ghost predicate ChildrenOnly(rows: seq<AccountRow>, k: int) {
    forall r :: r in rows ==> r.parentAccountID == Some(k)
  }

  lemma {:induction false} ChildCut(db: Database, q: AccountQ, ids: seq<int>, i: nat)
    requires db.Keyed() && q.limit.Some? && q.offset.None? && Unwindowed(q.edges)
    requires i < |ids| && LastHolder(ids, i)
    ensures ChildrenEdge(db, Some(q), ids)[i] == NaiveChildren(db, Some(q), ids[i])
       <==> CutAgrees(AllChildRows(db, q, ids), q.limit.value, WithParent(ids[i]))
  {
    var all, keep, fields := AllChildRows(db, q, ids), WithParent(ids[i]), OfParents(q, ids).fields;
    var cut := AccountRows(db, OfParents(q, ids));
    assert cut == Take(all, q.limit.value);
    SelectUnique(db.accounts, Keeps(OfParents(q, ids).predicates), q.order, q.limit, None, (r: AccountRow) => r.id);
    BatchIsNaive(db, q.edges, fields, cut);
    PickTrees(db, q.edges, fields, cut, ParentKeys(cut), ids[i], keep);
    RowsOfOneParent(db, q.(limit := None), ids, ids[i]);
    assert AccountRows(db, OfParents(q, [ids[i]])) == Take(Filter(all, keep), q.limit.value);
    CutIsPrefix(all, q.limit.value, keep);
  }

  /**
   * A limit on the children query applies to the whole batch, not per parent. The batch still agrees
   * with the per-row join exactly when nothing is cut, or one parent has all the children.
   */
  lemma {:induction false} ChildLimitExact(db: Database, q: AccountQ, ids: seq<int>)
    requires db.Keyed() && q.limit.Some? && q.offset.None? && Unwindowed(q.edges)
    requires forall i :: 0 <= i < |ids| ==> LastHolder(ids, i)
    ensures (forall i :: 0 <= i < |ids| ==> ChildrenEdge(db, Some(q), ids)[i] == NaiveChildren(db, Some(q), ids[i]))
       <==> (q.limit.value == 0 || |AllChildRows(db, q, ids)| <= q.limit.value
             || exists k :: ChildrenOnly(AllChildRows(db, q, ids), k))
  {
    hide AllChildRows, ChildrenEdge, NaiveChildren;
    var all, n := AllChildRows(db, q, ids), q.limit.value;
    forall i | 0 <= i < |ids| {
      ChildCut(db, q, ids, i);
    }
    if n == 0 || |all| <= n {
      forall i | 0 <= i < |ids| ensures CutAgrees(all, n, WithParent(ids[i])) {
      }
    } else if k :| ChildrenOnly(all, k) {
      forall i | 0 <= i < |ids| ensures CutAgrees(all, n, WithParent(ids[i])) {
        OneClass(all, n, WithParent(ids[i]));
      }
    } else {
      hide CutAgrees;
      var k := ParentIndex(db, q, ids, all[n]);
      assert !ChildrenOnly(all, ids[k]);
      var x :| x in all && x.parentAccountID != Some(ids[k]);
      var m := ParentIndex(db, q, ids, x);
      CutLoses(all, n, WithParent(ids[k]), WithParent(ids[m]), x);
    }
  }

  lemma {:induction false} OneClass<T(!new)>(s: seq<T>, n: nat, keep: T -> bool)
    requires (forall x :: x in s ==> keep(x)) || (forall x :: x in s ==> !keep(x))
    ensures CutAgrees(s, n, keep)
  {
    var t := Take(s, n);
    if x :| x in s && keep(x) {
      FilterAll(s, keep);
      FilterAll(t, keep);
    } else {
      FilterNone(s, keep);
      FilterNone(t, keep);
    }
  }

  lemma {:induction false} FilterAll<T(!new)>(s: seq<T>, keep: T -> bool)
    requires forall x :: x in s ==> keep(x)
    ensures Filter(s, keep) == s
  {
    if s != [] {
      var n := |s| - 1;
      assert s == s[..n] + [s[n]];
      FilterAll(s[..n], keep);
    }
  }

  lemma {:induction false} ParentIndex(db: Database, q: AccountQ, ids: seq<int>, r: AccountRow) returns (i: nat)
    requires r in AllChildRows(db, q, ids)
    ensures i < |ids| && r.parentAccountID == Some(ids[i])
  {
    var q' := OfParents(q.(limit := None), ids);
    SelectMember(db.accounts, Keeps(q'.predicates), q'.order, None, q'.offset, r);
    AllHoldAppend(q.predicates, ParentIn(ids), r);
    i :| 0 <= i < |ids| && ids[i] == r.parentAccountID.value;
  }

  /** The join rows a limited account-groups query would yield without its limit. */
  ghost function AllLinkRows(db: Database, q: AccountGroupQ, ids: seq<int>): seq<AccountGroupRow> {
    AccountGroupRows(db, OfAccounts(q.(limit := None), ids))
  }

  ghost predicate LinksOnly(rows: seq<AccountGroupRow>, k: int) {
    forall r :: r in rows ==> r.accountID == k
  }

  lemma {:induction false} LinkCut(db: Database, q: AccountGroupQ, ids: seq<int>, i: nat)
    requires db.Keyed() && q.limit.Some? && q.offset.None? && UnwindowedLinks(q.edges)
    requires i < |ids| && LastHolder(ids, i)
    ensures AccountGroupsEdge(db, Some(q), ids)[i] == NaiveAccountGroups(db, Some(q), ids[i])
       <==> CutAgrees(AllLinkRows(db, q, ids), q.limit.value, OfAccount(ids[i]))
  {
    var all, keep, fields := AllLinkRows(db, q, ids), OfAccount(ids[i]), OfAccounts(q, ids).fields;
    var cut := AccountGroupRows(db, OfAccounts(q, ids));
    assert cut == Take(all, q.limit.value);
    LinkBatchIsNaive(db, q.edges, fields, cut);
    PickLinkTrees(db, q.edges, fields, cut, ids[i]);
    LinksOfOneAccount(db, q.(limit := None), ids, ids[i]);
    assert AccountGroupRows(db, OfAccounts(q, [ids[i]])) == Take(Filter(all, keep), q.limit.value);
    CutIsPrefix(all, q.limit.value, keep);
  }

  lemma {:induction false} LinkIndex(db: Database, q: AccountGroupQ, ids: seq<int>, r: AccountGroupRow)
    returns (i: nat)
    requires r in AllLinkRows(db, q, ids)
    ensures i < |ids| && r.accountID == ids[i]
  {
    var q' := OfAccounts(q.(limit := None), ids);
    SelectMember(db.accountGroups, KeepsLink(q'.predicates), q'.order, None, q'.offset, r);
    assert q'.predicates[|q.predicates|] == AccountGroupAccountIn(ids);
    i :| 0 <= i < |ids| && ids[i] == r.accountID;
  }

  /** The same exact condition for a limit on the account-groups query. */
  lemma {:induction false} LinkLimitExact(db: Database, q: AccountGroupQ, ids: seq<int>)
    requires db.Keyed() && q.limit.Some? && q.offset.None? && UnwindowedLinks(q.edges)
    requires forall i :: 0 <= i < |ids| ==> LastHolder(ids, i)
    ensures (forall i :: 0 <= i < |ids| ==>
              AccountGroupsEdge(db, Some(q), ids)[i] == NaiveAccountGroups(db, Some(q), ids[i]))
       <==> (q.limit.value == 0 || |AllLinkRows(db, q, ids)| <= q.limit.value
             || exists k :: LinksOnly(AllLinkRows(db, q, ids), k))
  {
    hide AllLinkRows, AccountGroupsEdge, NaiveAccountGroups;
    var all, n := AllLinkRows(db, q, ids), q.limit.value;
    forall i | 0 <= i < |ids| {
      LinkCut(db, q, ids, i);
    }
    if n == 0 || |all| <= n {
      forall i | 0 <= i < |ids| ensures CutAgrees(all, n, OfAccount(ids[i])) {
      }
    } else if k :| LinksOnly(all, k) {
      forall i | 0 <= i < |ids| ensures CutAgrees(all, n, OfAccount(ids[i])) {
        OneClass(all, n, OfAccount(ids[i]));
      }
    } else {
      hide CutAgrees;
      var k := LinkIndex(db, q, ids, all[n]);
      assert !LinksOnly(all, ids[k]);
      var x :| x in all && x.accountID != ids[k];
      var m := LinkIndex(db, q, ids, x);
      CutLoses(all, n, OfAccount(ids[k]), OfAccount(ids[m]), x);
    }
  }

  /** The rows a limited many-to-one query would yield without its limit. */
  ghost function AllParentRows(db: Database, q: AccountQ, keys: seq<Option<int>>): seq<AccountRow> {
    AccountRows(db, OfIDs(q.(limit := None), DistinctKeys(keys)))
  }

  lemma {:induction false} ParentCut(db: Database, q: AccountQ, keys: seq<Option<int>>, i: nat)
    requires db.Keyed() && q.limit.Some? && q.offset.None? && Unwindowed(q.edges)
    requires i < |keys| && keys[i].Some?
    ensures AccountEdge(db, Some(q), keys)[i] == NaiveParent(db, Some(q), keys[i])
       <==> CutAgrees(AllParentRows(db, q, keys), q.limit.value, WithID(keys[i].value))
  {
    var k, keep := keys[i].value, WithID(keys[i].value);
    assert keys[i] in keys;
    var all, cut := AllParentRows(db, q, keys), AccountRows(db, OfIDs(q, DistinctKeys(keys)));
    assert cut == Take(all, q.limit.value);
    CutParent(db, q, keys, i);
    RowsOfOneID(db, q.(limit := None), DistinctKeys(keys), k);
    assert AccountRows(db, OfIDs(q, [k])) == Take(Filter(all, keep), q.limit.value);
    ParentRowsDistinct(db, q, keys);
    hide AllParentRows, AccountRows, AccountEdge, DistinctKeys, Filter;
    CutIsPrefix(all, q.limit.value, keep);
    OneByID(all, k);
    LastOfForest(db, q.edges, q.fields, Filter(cut, keep), Take(Filter(all, keep), q.limit.value));
  }

  /** What the batch finds under a limit: the last of the rows with the key that were not cut. */
  lemma {:induction false} CutParent(db: Database, q: AccountQ, keys: seq<Option<int>>, i: nat)
    requires db.Keyed() && q.offset.None? && Unwindowed(q.edges)
    requires i < |keys| && keys[i].Some?
    ensures var cut := AccountRows(db, OfIDs(q, DistinctKeys(keys)));
      AccountEdge(db, Some(q),
                  keys)[i] == LastOf(NaiveForest(db, q.edges, q.fields, Filter(cut, WithID(keys[i].value))))
  {
    var ids, k := DistinctKeys(keys), keys[i].value;
    assert keys[i] in keys;
    var cut := AccountRows(db, OfIDs(q, ids));
    SelectUnique(db.accounts, Keeps(OfIDs(q, ids).predicates), q.order, q.limit, None, (r: AccountRow) => r.id);
    hide AccountRows, Pick, PickLast;
    BatchIsNaive(db, q.edges, q.fields, cut);
    PickLastOfPick(IDKeys(cut), NaiveForest(db, q.edges, q.fields, cut), k);
    PickTrees(db, q.edges, q.fields, cut, IDKeys(cut), k, WithID(k));
  }

  lemma {:induction false} OneByID(rows: seq<AccountRow>, k: int)
    requires DistinctIDs(rows)
    ensures |Filter(rows, WithID(k))| <= 1
  {
    var f, id := Filter(rows, WithID(k)), (r: AccountRow) => r.id;
    FilterUnique(rows, WithID(k), id);
    assert |f| > 1 ==> id(f[0]) != id(f[1]);
    forall i | 0 <= i < |f| ensures f[i].id == k {
      assert f[i] in f;
    }
  }

  /** Of lists with at most one element the last elements agree only if the lists do. */
  lemma {:induction false} LastOfForest(
    db: Database, e: AccountEdges, fields: seq<Column>, s: seq<AccountRow>, t: seq<AccountRow>)
    requires |s| <= |t| <= 1 && (|s| == |t| ==> s == t)
    ensures LastOf(NaiveForest(db, e, fields, s)) == LastOf(NaiveForest(db, e, fields, t)) <==> |s| == |t|
  {
    hide Naive;
  }

  /**
   * A limit on a many-to-one query of accounts agrees with the lookup of each key exactly when it
   * cuts no row the keys ask for.
   */
  lemma {:induction false} ParentLimitExact(db: Database, q: AccountQ, keys: seq<Option<int>>)
    requires db.Keyed() && q.limit.Some? && q.offset.None? && Unwindowed(q.edges)
    ensures (forall i :: 0 <= i < |keys| ==> AccountEdge(db, Some(q), keys)[i] == NaiveParent(db, Some(q), keys[i]))
       <==> q.limit.value == 0 || |AllParentRows(db, q, keys)| <= q.limit.value
  {
    var all, n := AllParentRows(db, q, keys), q.limit.value;
    forall i | 0 <= i < |keys| && keys[i].Some?
      ensures AccountEdge(db, Some(q), keys)[i] == NaiveParent(db, Some(q), keys[i])
         <==> CutAgrees(all, n, WithID(keys[i].value))
    {
      ParentCut(db, q, keys, i);
    }
    hide AllParentRows, NaiveAccount, Pick, PickLast;
    if 0 < n < |all| {
      var k := CutKey(db, q, keys);
      ParentRowsDistinct(db, q, keys);
      CutRowLost(all, n);
      assert !CutAgrees(all, n, WithID(keys[k].value));
    } else {
      forall i | 0 <= i < |keys| && keys[i].Some? ensures CutAgrees(all, n, WithID(keys[i].value)) {
      }
    }
  }

  /** A key that asks for the first row past the limit. */
  lemma {:induction false} CutKey(db: Database, q: AccountQ, keys: seq<Option<int>>) returns (i: nat)
    requires q.limit.Some? && q.offset.None? && q.limit.value < |AllParentRows(db, q, keys)|
    ensures i < |keys| && keys[i] == Some(AllParentRows(db, q, keys)[q.limit.value].id)
  {
    var q', r := OfIDs(q.(limit := None), DistinctKeys(keys)), AllParentRows(db, q, keys)[q.limit.value];
    SelectMember(db.accounts, Keeps(q'.predicates), q'.order, None, q'.offset, r);
    AllHoldAppend(q.predicates, AccountIDIn(DistinctKeys(keys)), r);
    assert Some(r.id) in keys;
    i :| 0 <= i < |keys| && keys[i] == Some(r.id);
  }

  lemma {:induction false} ParentRowsDistinct(db: Database, q: AccountQ, keys: seq<Option<int>>)
    requires db.Keyed() && q.offset.None?
    ensures DistinctIDs(AllParentRows(db, q, keys))
  {
    var ps := OfIDs(q, DistinctKeys(keys)).predicates;
    SelectUnique(db.accounts, Keeps(ps), q.order, None, None, (r: AccountRow) => r.id);
  }

  lemma {:induction false} CutRowLost(all: seq<AccountRow>, n: nat)
    requires DistinctIDs(all) && 0 < n < |all|
    ensures !CutAgrees(all, n, WithID(all[n].id))
  {
    hide Filter;
    var keep := WithID(all[n].id);
    CutLength(all, n, keep);
    FilterPositive(all[n..], keep, all[n]);
    OneByID(all, all[n].id);
  }

  // ---- Two views of one relation ----

  lemma {:induction false} SelectHas<T(!new)>(table: seq<T>, keep: T -> bool, order: T -> int, x: T)
    ensures x in Select(table, keep, order, None, None) <==> x in table && keep(x)
  {
    SortByMember(Filter(table, keep), order, x);
  }

  lemma {:induction false} ByIDUnique(rows: seq<AccountRow>, r: AccountRow, s: AccountRow)
    requires DistinctIDs(rows) && r in rows && s in rows && r.id == s.id
    ensures r == s
  {
    var i :| 0 <= i < |rows| && rows[i] == r;
    var j :| 0 <= j < |rows| && rows[j] == s;
  }

  lemma {:induction false} NaiveID(db: Database, e: AccountEdges, fields: seq<Column>, r: AccountRow)
    ensures Naive(db, e, fields, r).row.id == r.id
  {
  }

  lemma {:induction false} NaiveLinkGroupOf(db: Database, e: AccountGroupEdges, fields: seq<AccountGroupColumn>,
                                            r: AccountGroupRow)
    ensures LinkNaive(db, e, fields, r).group == NaiveLinkGroup(db, e.withGroup, Some(r.groupID))
  {
  }

  lemma {:induction false} ChildRows(db: Database, q: AccountQ, k: int, r: AccountRow)
    requires q.limit.None? && q.offset.None?
    ensures r in AccountRows(db, OfParents(q, [k]))
       <==> r in db.accounts && r.parentAccountID == Some(k) && AllHold(q.predicates, r)
  {
    var q' := OfParents(q, [k]);
    SelectHas(db.accounts, Keeps(q'.predicates), q'.order, r);
    AllHoldAppend(q.predicates, ParentIn([k]), r);
  }

  /** `b` is loaded among the children of `a` iff it names `a` as its parent and passes the children query. */
  lemma {:induction false} ChildLoaded(db: Database, q: AccountQ, a: AccountRow, b: AccountRow)
    requires db.Keyed() && q.limit.None? && q.offset.None? && b in db.accounts
    ensures (exists t :: t in NaiveChildren(db, Some(q), a.id) && t.row.id == b.id)
       <==> b.parentAccountID == Some(a.id) && AllHold(q.predicates, b)
  {
    hide AccountRows;
    var q' := OfParents(q, [a.id]);
    var rows := AccountRows(db, q');
    var ts := NaiveForest(db, q.edges, q'.fields, rows);
    ChildRows(db, q, a.id, b);
    if t :| t in ts && t.row.id == b.id {
      var j :| 0 <= j < |ts| && ts[j] == t;
      assert rows[j] in rows;
      NaiveID(db, q.edges, q'.fields, rows[j]);
      ChildRows(db, q, a.id, rows[j]);
      ByIDUnique(db.accounts, rows[j], b);
    }
    if b in rows {
      var j :| 0 <= j < |rows| && rows[j] == b;
      NaiveID(db, q.edges, q'.fields, b);
      assert ts[j] in ts && ts[j].row.id == b.id;
    }
  }

  lemma {:induction false} IDRows(db: Database, q: AccountQ, k: int, r: AccountRow)
    requires q.limit.None? && q.offset.None?
    ensures r in AccountRows(db, OfIDs(q, [k])) <==> r in db.accounts && r.id == k && AllHold(q.predicates, r)
  {
    var q' := OfIDs(q, [k]);
    SelectHas(db.accounts, Keeps(q'.predicates), q'.order, r);
    AllHoldAppend(q.predicates, AccountIDIn([k]), r);
  }

  /** The parent a key leads to: the tree of the last row selected for it. */
  lemma {:induction false} NaiveAccountIs(db: Database, q: AccountQ, k: int)
    ensures var rows := AccountRows(db, OfIDs(q, [k]));
      NaiveAccount(db, q, k) ==
        if rows == [] then None else Some(Naive(db, q.edges, q.fields, rows[|rows| - 1]))
  {
    hide AccountRows, Naive;
  }

  /** `a` is loaded as the parent of `b` iff `b` names it and it passes the parent query. */
  lemma {:induction false} ParentLoaded(db: Database, q: AccountQ, a: AccountRow, b: AccountRow)
    requires db.Keyed() && q.limit.None? && q.offset.None? && a in db.accounts
    ensures IsParent(NaiveParent(db, Some(q), b.parentAccountID), a)
       <==> b.parentAccountID == Some(a.id) && AllHold(q.predicates, a)
  {
    hide AccountRows, AllHold, NaiveAccount, Naive, OfIDs;
    if b.parentAccountID.Some? {
      var k := b.parentAccountID.value;
      var rows := AccountRows(db, OfIDs(q, [k]));
      IDRows(db, q, k, a);
      NaiveAccountIs(db, q, k);
      if rows != [] {
        var r := rows[|rows| - 1];
        assert r in rows;
        IDRows(db, q, k, r);
        NaiveID(db, q.edges, q.fields, r);
        if r.id == a.id {
          ByIDUnique(db.accounts, r, a);
        }
      }
    }
  }

  ghost predicate IsParent(t: Option<AccountTree>, a: AccountRow) {
    t.Some? && t.value.row.id == a.id
  }

  /** On other rows a narrowed parent query still loads exactly the parents whose keys the first run had. */
  lemma {:induction false} ParentLost(db: Database, q: AccountQ, first: seq<Option<int>>, a: AccountRow, b: AccountRow)
    requires db.Keyed() && q.limit.None? && q.offset.None? && a in db.accounts && DistinctKeys(first) != []
    ensures IsParent(NaiveParent(db, Some(NarrowAccount(db, q, first)), b.parentAccountID), a)
       <==> IsParent(NaiveParent(db, Some(q), b.parentAccountID), a) && b.parentAccountID in first
  {
    hide AllHold, NarrowEdges;
    var ids := DistinctKeys(first);
    ParentLoaded(db, NarrowAccount(db, q, first), a, b);
    ParentLoaded(db, q, a, b);
    AllHoldAppend(q.predicates, AccountIDIn(ids), a);
  }

  /** On other rows a narrowed children query still loads exactly the children of accounts the first run had. */
  lemma {:induction false} ChildLost(db: Database, q: AccountQ, first: seq<int>, a: AccountRow, b: AccountRow)
    requires db.Keyed() && q.limit.None? && q.offset.None? && b in db.accounts
    ensures IsChild(NaiveChildren(db, Some(NarrowChildren(db, q, first)), a.id), b)
       <==> IsChild(NaiveChildren(db, Some(q), a.id), b) && a.id in first
  {
    hide AllHold, NarrowEdges, NaiveChildren;
    ChildLoaded(db, NarrowChildren(db, q, first), a, b);
    ChildLoaded(db, q, a, b);
    AllHoldAppend(q.predicates, ParentIn(first), b);
  }

  ghost predicate IsChild(ts: seq<AccountTree>, b: AccountRow) {
    exists t :: t in ts && t.row.id == b.id
  }

  /** Among loaded accounts, b is one of a's children exactly when a is b's parent. */
  lemma {:induction false} ParentsMirrorChildren(db: Database, e: AccountEdges, fields: seq<Column>,
                                                 rows: seq<AccountRow>, i: nat, j: nat)
    requires db.Keyed() && Unwindowed(e) && DistinctIDs(rows) && i < |rows| && j < |rows|
    requires e.withParent.Some? && e.withChildren.Some?
    requires rows[i] in db.accounts && AllHold(e.withParent.value.predicates, rows[i])
    requires rows[j] in db.accounts && AllHold(e.withChildren.value.predicates, rows[j])
    ensures var ts := Batch(db, e, fields, rows);
      (exists t :: t in ts[i].children && t.row.id == rows[j].id)
      <==> ts[j].parent.Some? && ts[j].parent.value.row.id == rows[i].id
  {
    BatchIsNaive(db, e, fields, rows);
    ChildLoaded(db, e.withChildren.value, rows[i], rows[j]);
    ParentLoaded(db, e.withParent.value, rows[i], rows[j]);
  }

  lemma {:induction false} ProxyRowsOfID(db: Database, q: ProxyQ, id: int, r: ProxyRow)
    requires q.limit.None? && q.offset.None?
    ensures r in ProxyRows(db, OfProxies(q, [id])) <==> r in db.proxies && r.id == id && AllProxyHold(q.predicates, r)
  {
    var q' := OfProxies(q, [id]);
    SelectHas(db.proxies, KeepsProxy(q'.predicates), q'.order, r);
    assert forall i :: 0 <= i < |q.predicates| ==> q'.predicates[i] == q.predicates[i];
    assert q'.predicates[|q.predicates|] == ProxyIDIn([id]);
  }

  /** The proxy a key leads to: the selected row with that identifier, if there is one. */
  lemma {:induction false} ProxyLoaded(db: Database, q: ProxyQ, key: Option<int>, p: ProxyRow)
    requires db.Keyed() && q.limit.None? && q.offset.None?
    ensures NaiveProxy(db, Some(q), key) == Some(p)
       <==> p in db.proxies && key == Some(p.id) && AllProxyHold(q.predicates, p)
  {
    hide ProxyRows, AllProxyHold;
    if key.Some? {
      var rows := ProxyRows(db, OfProxies(q, [key.value]));
      ProxyRowsOfID(db, q, key.value, p);
      if rows != [] {
        var r := rows[|rows| - 1];
        assert r in rows;
        ProxyRowsOfID(db, q, key.value, r);
        if p in rows {
          var i :| 0 <= i < |db.proxies| && db.proxies[i] == r;
          var j :| 0 <= j < |db.proxies| && db.proxies[j] == p;
        }
      }
    }
  }

  /** The groups joined to an account, by the direct edge. */
  lemma {:induction false} GroupLoaded(db: Database, q: GroupQ, id: int, g: GroupRow)
    requires db.Keyed() && q.limit.None? && q.offset.None?
    ensures g in NaiveGroups(db, Some(q), id)
       <==> g in db.groups && AllGroupHold(q.predicates, g) && Linked(db.accountGroups, [id], g.id)
  {
    var keep, key := KeepsGroup(q.predicates), (g: GroupRow) => g.id;
    var groups := SortBy(Filter(db.groups, keep), q.order);
    FilterUnique(db.groups, keep, key);
    SortByUnique(Filter(db.groups, keep), q.order, key);
    GroupNodesOfJoin(groups, db.accountGroups, [id]);
    SortByMember(Filter(db.groups, keep), q.order, g);
  }

  lemma {:induction false} GroupRowsOfID(db: Database, q: GroupQ, id: int, r: GroupRow)
    requires q.limit.None? && q.offset.None?
    ensures r in GroupRows(db, OfGroups(q, [id])) <==> r in db.groups && r.id == id && AllGroupHold(q.predicates, r)
  {
    var q' := OfGroups(q, [id]);
    SelectHas(db.groups, KeepsGroup(q'.predicates), q'.order, r);
    assert forall i :: 0 <= i < |q.predicates| ==> q'.predicates[i] == q.predicates[i];
    assert q'.predicates[|q.predicates|] == GroupIDIn([id]);
  }

  lemma {:induction false} LinkGroupLoaded(db: Database, q: GroupQ, id: int, g: GroupRow)
    requires db.Keyed() && q.limit.None? && q.offset.None?
    ensures NaiveLinkGroup(db, Some(q), Some(id)) == Some(g)
       <==> g in db.groups && g.id == id && AllGroupHold(q.predicates, g)
  {
    hide GroupRows, AllGroupHold;
    var rows := GroupRows(db, OfGroups(q, [id]));
    GroupRowsOfID(db, q, id, g);
    if rows != [] {
      var r := rows[|rows| - 1];
      assert r in rows;
      GroupRowsOfID(db, q, id, r);
      if g in rows {
        var i :| 0 <= i < |db.groups| && db.groups[i] == r;
        var j :| 0 <= j < |db.groups| && db.groups[j] == g;
      }
    }
  }

  lemma {:induction false} LinkRows(db: Database, q: AccountGroupQ, id: int, l: AccountGroupRow)
    requires q.limit.None? && q.offset.None? && q.predicates == []
    ensures l in AccountGroupRows(db, OfAccounts(q, [id])) <==> l in db.accountGroups && l.accountID == id
  {
    var q' := OfAccounts(q, [id]);
    SelectHas(db.accountGroups, KeepsLink(q'.predicates), q'.order, l);
    assert q'.predicates == [AccountGroupAccountIn([id])] && q'.predicates[0] == AccountGroupAccountIn([id]);
  }

  lemma {:induction false} GroupByTwoHops(db: Database, q: AccountGroupQ, id: int, g: GroupRow)
    requires db.Keyed() && q.limit.None? && q.offset.None? && UnwindowedLinks(q.edges)
    requires q.predicates == [] && q.edges.withGroup.Some?
    ensures (exists l :: l in NaiveAccountGroups(db, Some(q), id) && l.group == Some(g))
       <==> g in db.groups && AllGroupHold(q.edges.withGroup.value.predicates, g)
            && Linked(db.accountGroups, [id], g.id)
  {
    hide AccountGroupRows, AllGroupHold;
    var q', hq := OfAccounts(q, [id]), q.edges.withGroup.value;
    var links := AccountGroupRows(db, q');
    var ts := LinkNaiveForest(db, q.edges, q'.fields, links);
    if l :| l in ts && l.group == Some(g) {
      var k :| 0 <= k < |ts| && ts[k] == l;
      assert links[k] in links;
      LinkRows(db, q, id, links[k]);
      NaiveLinkGroupOf(db, q.edges, q'.fields, links[k]);
      LinkGroupLoaded(db, hq, links[k].groupID, g);
    }
    if g in db.groups && AllGroupHold(hq.predicates, g) && Linked(db.accountGroups, [id], g.id) {
      var r :| r in db.accountGroups && r.groupID == g.id && r.accountID in [id];
      LinkRows(db, q, id, r);
      var k :| 0 <= k < |links| && links[k] == r;
      NaiveLinkGroupOf(db, q.edges, q'.fields, r);
      LinkGroupLoaded(db, hq, r.groupID, g);
      assert ts[k] in ts && ts[k].group == Some(g);
    }
  }

  /** The groups edge finds what two hops through the join entity find. */
  lemma {:induction false} GroupsTwoWays(db: Database, e: AccountEdges, fields: seq<Column>, rows: seq<AccountRow>,
                                         i: nat, g: GroupRow)
    requires db.Keyed() && Unwindowed(e) && DistinctIDs(rows) && i < |rows|
    requires e.withGroups.Some? && e.withAccountGroups.Some? && e.withAccountGroups.value.edges.withGroup.Some?
    requires e.withAccountGroups.value.predicates == []
    requires e.withAccountGroups.value.edges.withGroup.value.predicates == e.withGroups.value.predicates
    ensures var t := Batch(db, e, fields, rows)[i];
      g in t.groups <==> exists l :: l in t.accountGroups && l.group == Some(g)
  {
    BatchIsNaive(db, e, fields, rows);
    GroupLoaded(db, e.withGroups.value, rows[i].id, g);
    GroupByTwoHops(db, e.withAccountGroups.value, rows[i].id, g);
  }

  // ---- One-to-many loading partitions the neighbours ----

  ghost function TotalLength<T>(ss: seq<seq<T>>): nat {
    if ss == [] then 0 else TotalLength(ss[..|ss| - 1]) + |ss[|ss| - 1]|
  }

  ghost function Picks<T>(keys: seq<Option<int>>, vals: seq<T>, ids: seq<int>): (r: seq<seq<T>>)
    requires |keys| == |vals|
    ensures |r| == |ids|
  {
    seq(|ids|, i requires 0 <= i < |ids| => Pick(keys, vals, ids[i]))
  }

  lemma {:induction false} PickNext<T>(keys: seq<Option<int>>, vals: seq<T>, key: Option<int>, val: T, k: int)
    requires |keys| == |vals|
    ensures Pick(keys + [key], vals + [val], k) == Pick(keys, vals, k) + (if key == Some(k) then [val] else [])
  {
    assert (keys + [key])[..|keys|] == keys && (vals + [val])[..|vals|] == vals;
  }

  lemma {:induction false} PicksNext<T>(keys: seq<Option<int>>, vals: seq<T>, key: Option<int>, val: T, ids: seq<int>)
    requires |keys| == |vals| && forall i, j :: 0 <= i < j < |ids| ==> ids[i] != ids[j]
    ensures TotalLength(Picks(keys + [key], vals + [val], ids))
         == TotalLength(Picks(keys, vals, ids)) + (if key.Some? && key.value in ids then 1 else 0)
  {
    hide Pick;
    if ids != [] {
      var n := |ids| - 1;
      PicksNext(keys, vals, key, val, ids[..n]);
      PickNext(keys, vals, key, val, ids[n]);
      assert ids == ids[..n] + [ids[n]] && ids[n] !in ids[..n];
      assert Picks(keys + [key], vals + [val], ids)[..n] == Picks(keys + [key], vals + [val], ids[..n]);
      assert Picks(keys, vals, ids)[..n] == Picks(keys, vals, ids[..n]);
    }
  }

  lemma {:induction false} PicksPartition<T>(keys: seq<Option<int>>, vals: seq<T>, ids: seq<int>)
    requires |keys| == |vals| && forall i, j :: 0 <= i < j < |ids| ==> ids[i] != ids[j]
    requires forall k :: k in keys ==> k.Some? && k.value in ids
    ensures TotalLength(Picks(keys, vals, ids)) == |vals|
  {
    if keys == [] {
      NoPicks(keys, vals, ids);
    } else {
      var n := |keys| - 1;
      assert keys == keys[..n] + [keys[n]] && vals == vals[..n] + [vals[n]];
      PicksPartition(keys[..n], vals[..n], ids);
      PicksNext(keys[..n], vals[..n], keys[n], vals[n], ids);
    }
  }

  lemma {:induction false} NoPicks<T>(keys: seq<Option<int>>, vals: seq<T>, ids: seq<int>)
    requires keys == [] && vals == []
    ensures TotalLength(Picks(keys, vals, ids)) == 0
  {
    if ids != [] {
      NoPicks(keys, vals, ids[..|ids| - 1]);
      assert Picks(keys, vals, ids)[..|ids| - 1] == Picks(keys, vals, ids[..|ids| - 1]);
    }
  }

  lemma {:induction false} ParentKeyAsked(db: Database, q: AccountQ, ids: seq<int>, r: AccountRow)
    requires r in AccountRows(db, OfParents(q, ids))
    ensures r.parentAccountID.Some? && r.parentAccountID.value in ids
  {
    var q' := OfParents(q, ids);
    SelectMember(db.accounts, Keeps(q'.predicates), q'.order, q'.limit, q'.offset, r);
    AllHoldAppend(q.predicates, ParentIn(ids), r);
  }

  lemma {:induction false} ChildrenArePicks(db: Database, q: AccountQ, ids: seq<int>)
    requires forall i :: 0 <= i < |ids| ==> LastHolder(ids, i)
    ensures var rows := AccountRows(db, OfParents(q, ids));
      ChildrenEdge(db, Some(q), ids) == Picks(ParentKeys(rows), Batch(db, q.edges, OfParents(q, ids).fields, rows), ids)
  {
    hide AccountRows, Batch, OfParents, Pick;
  }

  /** Every neighbour of a batch lands in exactly one list of children: the lengths add up. */
  lemma {:induction false} ChildrenPartition(db: Database, q: AccountQ, ids: seq<int>)
    requires forall i :: 0 <= i < |ids| ==> LastHolder(ids, i)
    ensures TotalLength(ChildrenEdge(db, Some(q), ids)) == |AccountRows(db, OfParents(q, ids))|
  {
    hide AccountRows, Batch, OfParents, ChildrenEdge, TotalLength, Picks;
    var rows := AccountRows(db, OfParents(q, ids));
    forall k | k in ParentKeys(rows) ensures k.Some? && k.value in ids {
      var j :| 0 <= j < |rows| && ParentKeys(rows)[j] == k;
      ParentKeyAsked(db, q, ids, rows[j]);
    }
    forall i, j | 0 <= i < j < |ids| ensures ids[i] != ids[j] {
      assert LastHolder(ids, i);
    }
    PicksPartition(ParentKeys(rows), Batch(db, q.edges, OfParents(q, ids).fields, rows), ids);
    ChildrenArePicks(db, q, ids);
  }
}
