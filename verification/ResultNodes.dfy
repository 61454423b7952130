/** The nodes of a result: which rows they are of, in which order, and what they show. */
module ResultNodes {
  import opened Collections
  import opened Selections
  import opened Schema
  import opened QueryModel
  import opened JoinTheorem
  import opened EdgeLaws
  import opened QueryAnswers
  import opened Graph

  ghost predicate ShowAll(fields: seq<Column>, proxy: bool, parent: bool, rows: seq<AccountRow>, nodes: seq<Account>) {
    |nodes| == |rows| && forall i :: 0 <= i < |rows| ==> Shows(fields, proxy, parent, rows[i], nodes[i].row)
  }

  /** The nodes of a query: one per row it selects, in order, with the selected columns. */
  ghost predicate Listed(db: Database, q: AccountQ, nodes: seq<Account>) {
    exists rows :: Answered(db, q, rows)
                   && ShowAll(q.fields, q.edges.withProxy.Some?, q.edges.withParent.Some?, rows, nodes)
  }

  lemma {:induction false} BatchRow(db: Database, e: AccountEdges, fields: seq<Column>, rows: seq<AccountRow>, i: nat)
    requires i < |rows|
    ensures Batch(db, e, fields, rows)[i].row == ProjectAccount(rows[i], ColumnsOf(fields, e))
  {
    hide GroupsEdge, ProxyEdge, AccountEdge, ChildrenEdge, AccountGroupsEdge, ProjectAccount, ColumnsOf;
  }

  lemma {:induction false} NodeRow(S: set<object>, n: Account, t: AccountTree)
    requires Denotes(S, n, t)
    ensures n.row == t.row && |n.children| == |t.children|
    ensures forall i :: 0 <= i < |n.children| ==> Denotes(S, n.children[i], t.children[i])
    ensures |n.accountGroups| == |t.accountGroups|
    ensures forall i :: 0 <= i < |n.accountGroups| ==> LinkDenotes(S, n.accountGroups[i], t.accountGroups[i])
  {
  }

  lemma {:induction false} LinkNodeRow(S: set<object>, n: AccountGroup, t: AccountGroupTree)
    requires LinkDenotes(S, n, t)
    ensures n.row == t.row
  {
  }

  lemma {:induction false} NaiveChildAt(db: Database, e: AccountEdges, fields: seq<Column>, r: AccountRow, i: nat)
    requires e.withChildren.Some?
    requires i < |AccountRows(db, OfParents(e.withChildren.value, [r.id]))|
    ensures var q := e.withChildren.value;
      var rows := AccountRows(db, OfParents(q, [r.id]));
      && |Naive(db, e, fields, r).children| == |rows|
      && Naive(db, e, fields, r).children[i] == Naive(db, q.edges, OfParents(q, [r.id]).fields, rows[i])
  {
    hide AccountRows, NaiveGroups, NaiveProxy, NaiveParent, NaiveAccountGroups, ProjectAccount, ColumnsOf;
    var q := e.withChildren.value;
    var rows := AccountRows(db, OfParents(q, [r.id]));
    assert Naive(db, e, fields, r).children == NaiveForest(db, q.edges, OfParents(q, [r.id]).fields, rows);
  }

  lemma {:induction false} NaiveLinkAt(db: Database, e: AccountEdges, fields: seq<Column>, r: AccountRow, i: nat)
    requires e.withAccountGroups.Some?
    requires i < |AccountGroupRows(db, OfAccounts(e.withAccountGroups.value, [r.id]))|
    ensures var q := e.withAccountGroups.value;
      var rows := AccountGroupRows(db, OfAccounts(q, [r.id]));
      && |Naive(db, e, fields, r).accountGroups| == |rows|
      && Naive(db, e, fields, r).accountGroups[i] == LinkNaive(db, q.edges, OfAccounts(q, [r.id]).fields, rows[i])
      && Naive(db, e, fields, r).accountGroups[i].row
         == ProjectAccountGroup(rows[i], LinkColumnsOf(OfAccounts(q, [r.id]).fields, q.edges))
  {
    hide AccountGroupRows, NaiveGroups, NaiveProxy, NaiveParent, NaiveChildren, NaiveLinkGroup, ProjectAccount,
         ColumnsOf, ProjectAccountGroup, LinkColumnsOf;
    var q := e.withAccountGroups.value;
    var rows := AccountGroupRows(db, OfAccounts(q, [r.id]));
    assert Naive(db, e, fields, r).accountGroups == LinkNaiveForest(db, q.edges, OfAccounts(q, [r.id]).fields, rows);
  }

  lemma {:induction false} NaiveRow(db: Database, e: AccountEdges, fields: seq<Column>, r: AccountRow)
    ensures Naive(db, e, fields, r).row == ProjectAccount(r, ColumnsOf(fields, e))
  {
    hide NaiveGroups, NaiveProxy, NaiveParent, NaiveAccountGroups, NaiveChildren, ProjectAccount, ColumnsOf;
  }

  lemma {:induction false} NaiveLengths(db: Database, e: AccountEdges, fields: seq<Column>, r: AccountRow)
    ensures e.withChildren.Some? ==>
      |Naive(db, e, fields, r).children| == |AccountRows(db, OfParents(e.withChildren.value, [r.id]))|
    ensures e.withAccountGroups.Some? ==>
      |Naive(db, e, fields, r).accountGroups|
      == |AccountGroupRows(db, OfAccounts(e.withAccountGroups.value, [r.id]))|
  {
    hide AccountRows, AccountGroupRows, NaiveGroups, NaiveProxy, NaiveParent, ProjectAccount, ColumnsOf;
  }

  lemma {:induction false} ChildrenForAt(db: Database, q: AccountQ, ids: seq<int>, i: nat)
    requires i < |ids| && LastHolder(ids, i)
    ensures var fetched := AccountRows(db, OfParents(q, ids));
      ChildrenFor(db, q, ids)[i]
      == Pick(ParentKeys(fetched), Batch(db, q.edges, OfParents(q, ids).fields, fetched), ids[i])
  {
    hide AccountRows, Batch, Pick, LastHolder;
  }

  lemma {:induction false} BatchChildren(
    db: Database, e: AccountEdges, fields: seq<Column>, rows: seq<AccountRow>, i: nat)
    requires e.withChildren.Some? && i < |rows| && LastHolder(AccountIDs(rows), i)
    ensures var q := e.withChildren.value;
      var fetched := AccountRows(db, OfParents(q, AccountIDs(rows)));
      Batch(db, e, fields, rows)[i].children
      == Pick(ParentKeys(fetched), Batch(db, q.edges, OfParents(q, AccountIDs(rows)).fields, fetched), rows[i].id)
  {
    hide AccountRows, GroupsEdge, ProxyEdge, AccountEdge, AccountGroupsEdge, ProjectAccount, ColumnsOf, Pick;
    hide ChildrenFor, LastHolder;
    var q, ids := e.withChildren.value, AccountIDs(rows);
    assert Batch(db, e, fields, rows)[i].children == ChildrenEdge(db, e.withChildren, ids)[i];
    assert ChildrenEdge(db, Some(q), ids) == ChildrenFor(db, q, ids);
    ChildrenForAt(db, q, ids, i);
  }

  lemma {:induction false} DecodedListed(db: Database, q: AccountQ, nodes: seq<Account>)
    requires |nodes| == |AccountRows(db, q)|
    requires forall i :: 0 <= i < |nodes| ==>
      nodes[i].row == ProjectAccount(AccountRows(db, q)[i], ColumnsOf(q.fields, q.edges))
    ensures Listed(db, q, nodes)
  {
    hide Answered, Shows, AccountRows, ColumnsOf, ProjectAccount;
    var rows := AccountRows(db, q);
    AnsweredExactly(db, q, rows);
    forall i | 0 <= i < |rows|
      ensures Shows(q.fields, q.edges.withProxy.Some?, q.edges.withParent.Some?, rows[i], nodes[i].row)
    {
      ShownExactly(q.fields, q.edges, rows[i], nodes[i].row);
    }
  }

  /**
   * The children of a loaded account: every account that names it and meets the conditions of the
   * children query, in its order, each with its own children loaded in the same way.
   */
  lemma {:induction false} ChildrenListed(S: set<object>, db: Database, e: AccountEdges, fields: seq<Column>,
                                          r: AccountRow, n: Account) returns (rows: seq<AccountRow>)
    requires e.withChildren.Some? && Denotes(S, n, Naive(db, e, fields, r))
    ensures var q := e.withChildren.value;
      && ChildrenAnswered(db, q, [r.id], rows)
      && ShowAll(q.fields, q.edges.withProxy.Some?, true, rows, n.children)
      && forall i :: 0 <= i < |rows| ==>
           Denotes(S, n.children[i], Naive(db, q.edges, OfParents(q, [r.id]).fields, rows[i]))
  {
    hide Denotes, ChildrenAnswered, Shows, AccountRows, ProjectAccount, ColumnsOf, Naive;
    var q := e.withChildren.value;
    rows := AccountRows(db, OfParents(q, [r.id]));
    ChildrenAnsweredExactly(db, q, [r.id], rows);
    NodeRow(S, n, Naive(db, e, fields, r));
    NaiveLengths(db, e, fields, r);
    forall i | 0 <= i < |rows|
      ensures Denotes(S, n.children[i], Naive(db, q.edges, OfParents(q, [r.id]).fields, rows[i]))
      ensures Shows(q.fields, q.edges.withProxy.Some?, true, rows[i], n.children[i].row)
    {
      NaiveChildAt(db, e, fields, r, i);
      NodeRow(S, n.children[i], Naive(db, q.edges, OfParents(q, [r.id]).fields, rows[i]));
      NaiveRow(db, q.edges, OfParents(q, [r.id]).fields, rows[i]);
      ShownChild(q, [r.id], rows[i], n.children[i].row);
    }
  }

  /** The join nodes of a loaded account, likewise. */
  lemma {:induction false} LinksListed(S: set<object>, db: Database, e: AccountEdges, fields: seq<Column>,
                                       r: AccountRow, n: Account) returns (rows: seq<AccountGroupRow>)
    requires e.withAccountGroups.Some? && Denotes(S, n, Naive(db, e, fields, r))
    ensures var q := e.withAccountGroups.value;
      && LinksAnswered(db, q, [r.id], rows) && |n.accountGroups| == |rows|
      && forall i :: 0 <= i < |rows| ==>
           && ShowsLink(q.fields, q.edges.withGroup.Some?, rows[i], n.accountGroups[i].row)
           && LinkDenotes(S, n.accountGroups[i], LinkNaive(db, q.edges, OfAccounts(q, [r.id]).fields, rows[i]))
  {
    hide Denotes, LinkDenotes, LinksAnswered, ShowsLink, AccountGroupRows, ProjectAccountGroup, LinkColumnsOf, Naive,
         LinkNaive;
    var q := e.withAccountGroups.value;
    rows := AccountGroupRows(db, OfAccounts(q, [r.id]));
    LinksAnsweredExactly(db, q, [r.id], rows);
    NodeRow(S, n, Naive(db, e, fields, r));
    NaiveLengths(db, e, fields, r);
    forall i | 0 <= i < |rows|
      ensures LinkDenotes(S, n.accountGroups[i], LinkNaive(db, q.edges, OfAccounts(q, [r.id]).fields, rows[i]))
      ensures ShowsLink(q.fields, q.edges.withGroup.Some?, rows[i], n.accountGroups[i].row)
    {
      NaiveLinkAt(db, e, fields, r, i);
      LinkNodeRow(S, n.accountGroups[i], Naive(db, e, fields, r).accountGroups[i]);
      ShownLink(q, [r.id], rows[i], n.accountGroups[i].row);
    }
  }

  /** The groups of a loaded account, when the groups query has no window. */
  lemma {:induction false} GroupsListed(S: set<object>, db: Database, e: AccountEdges, fields: seq<Column>,
                                        r: AccountRow, n: Account) returns (rows: seq<GroupRow>)
    requires db.Keyed() && e.withGroups.Some? && Denotes(S, n, Naive(db, e, fields, r))
    requires e.withGroups.value.limit.None? && e.withGroups.value.offset.None?
    ensures GroupsAnswered(db, e.withGroups.value, r.id, rows) && GroupsDenote(n.groups, rows)
  {
    hide GroupsAnswered, GroupNodes;
    rows := NaiveGroups(db, e.withGroups, r.id);
    GroupsAnsweredExactly(db, e.withGroups.value, r.id, rows);
  }

  // ---- The ends of many-to-one edges ----

  /** `n` is the node of the account `k` of the query `q`, with everything below it; null without such an account. */
  ghost predicate IsAccount(S: set<object>, db: Database, q: AccountQ, k: int, n: Account?)
    reads S
  {
    if n == null then forall a :: a in db.accounts && a.id == k ==> !Meets(q.predicates, a)
    else exists a :: a in db.accounts && a.id == k && Meets(q.predicates, a)
                     && Shows(q.fields, q.edges.withProxy.Some?, q.edges.withParent.Some?, a, n.row)
                     && Denotes(S, n, Naive(db, q.edges, q.fields, a))
  }

  lemma {:induction false} AccountFound(S: set<object>, db: Database, q: AccountQ, k: int, n: Account?)
    requires db.Keyed() && q.limit.None? && q.offset.None?
    requires var t := NaiveAccount(db, q, k); if n == null then t.None? else t.Some? && Denotes(S, n, t.value)
    ensures IsAccount(S, db, q, k, n)
  {
    hide Denotes, Naive, AllHold, Meets, AccountRows, Shows, ProjectAccount, ColumnsOf, NaiveAccount;
    var rows := AccountRows(db, OfIDs(q, [k]));
    NaiveAccountIs(db, q, k);
    forall a ensures a in rows <==> a in db.accounts && a.id == k && Meets(q.predicates, a) {
      IDRows(db, q, k, a);
      HoldIsMeetsFor(q.predicates, a);
    }
    if n != null {
      var a := rows[|rows| - 1];
      assert a in rows;
      NodeRow(S, n, Naive(db, q.edges, q.fields, a));
      NaiveRow(db, q.edges, q.fields, a);
      ShownExactly(q.fields, q.edges, a, n.row);
    }
  }

  lemma {:induction false} ParentOf(S: set<object>, db: Database, e: AccountEdges, fields: seq<Column>, r: AccountRow,
                                    n: Account)
    requires Denotes(S, n, Naive(db, e, fields, r)) && e.withParent.Some?
    ensures var t := NaiveParent(db, e.withParent, r.parentAccountID);
      if n.parent == null then t.None? else t.Some? && Denotes(S, n.parent, t.value)
  {
    hide NaiveGroups, NaiveProxy, NaiveParent, NaiveChildren, NaiveAccountGroups, ProjectAccount, ColumnsOf;
  }

  /** The parent of a loaded account: the one its key names if it meets the conditions, with all below it. */
  lemma {:induction false} ParentListed(S: set<object>, db: Database, e: AccountEdges, fields: seq<Column>,
                                        r: AccountRow, n: Account)
    requires db.Keyed() && e.withParent.Some? && Denotes(S, n, Naive(db, e, fields, r))
    requires e.withParent.value.limit.None? && e.withParent.value.offset.None?
    ensures if r.parentAccountID.None? then n.parent == null
            else IsAccount(S, db, e.withParent.value, r.parentAccountID.value, n.parent)
  {
    ParentOf(S, db, e, fields, r, n);
    hide Denotes, Naive, IsAccount, NaiveAccount;
    if r.parentAccountID.Some? {
      AccountFound(S, db, e.withParent.value, r.parentAccountID.value, n.parent);
    }
  }

  /** The account of a loaded join node, likewise. */
  lemma {:induction false} LinkAccountListed(S: set<object>, db: Database, e: AccountGroupEdges,
                                             fields: seq<AccountGroupColumn>, l: AccountGroupRow, n: AccountGroup)
    requires db.Keyed() && e.withAccount.Some? && LinkDenotes(S, n, LinkNaive(db, e, fields, l))
    requires e.withAccount.value.limit.None? && e.withAccount.value.offset.None?
    ensures IsAccount(S, db, e.withAccount.value, l.accountID, n.account)
  {
    hide IsAccount, NaiveAccount;
    AccountFound(S, db, e.withAccount.value, l.accountID, n.account);
  }

  /** The group of a loaded join node: the one it names if it meets the conditions. */
  lemma {:induction false} LinkGroupListed(S: set<object>, db: Database, e: AccountGroupEdges,
                                           fields: seq<AccountGroupColumn>, l: AccountGroupRow, n: AccountGroup)
    requires db.Keyed() && e.withGroup.Some? && LinkDenotes(S, n, LinkNaive(db, e, fields, l))
    requires e.withGroup.value.limit.None? && e.withGroup.value.offset.None?
    ensures forall g :: g in db.groups && g.id == l.groupID && GroupMeets(e.withGroup.value.predicates, g) <==>
      n.group != null && g == n.group.row
  {
    hide GroupMeets, AllGroupHold, NaiveLinkGroup;
    var q := e.withGroup.value;
    forall g: GroupRow
      ensures NaiveLinkGroup(db, Some(q), Some(l.groupID)) == Some(g)
        <==> g in db.groups && g.id == l.groupID && GroupMeets(q.predicates, g)
    {
      LinkGroupLoaded(db, q, l.groupID, g);
      HoldIsMeets();
    }
  }

  /** The proxy of a loaded account, likewise. */
  lemma {:induction false} ProxyListed(S: set<object>, db: Database, e: AccountEdges, fields: seq<Column>,
                                       r: AccountRow, n: Account)
    requires db.Keyed() && e.withProxy.Some? && Denotes(S, n, Naive(db, e, fields, r))
    requires e.withProxy.value.limit.None? && e.withProxy.value.offset.None?
    ensures forall p :: p in db.proxies && r.proxyID == Some(p.id) && ProxyMeets(e.withProxy.value.predicates, p) <==>
      n.proxy != null && p == n.proxy.row
  {
    ProxyOf(S, db, e, fields, r, n);
    hide ProxyMeets, AllProxyHold, NaiveProxy, Denotes, Naive;
    var q := e.withProxy.value;
    forall p: ProxyRow
      ensures NaiveProxy(db, Some(q), r.proxyID) == Some(p)
        <==> p in db.proxies && r.proxyID == Some(p.id) && ProxyMeets(q.predicates, p)
    {
      ProxyLoaded(db, q, r.proxyID, p);
      HoldIsMeets();
    }
  }

  lemma {:induction false} ProxyOf(S: set<object>, db: Database, e: AccountEdges, fields: seq<Column>, r: AccountRow,
                                   n: Account)
    requires Denotes(S, n, Naive(db, e, fields, r))
    ensures ProxyDenotes(n.proxy, NaiveProxy(db, e.withProxy, r.proxyID))
  {
    hide NaiveGroups, NaiveProxy, NaiveParent, NaiveChildren, NaiveAccountGroups, ProjectAccount, ColumnsOf;
  }

  // ---- Under a window ----

  lemma {:induction false} PickFollows<R(!new), T>(rows: seq<R>, keep: R -> bool, fits: (R, T) -> bool,
                                                   keys: seq<Option<int>>, vals: seq<T>, k: int)
    requires |keys| == |vals| == |rows|
    requires forall i :: 0 <= i < |rows| ==> (keys[i] == Some(k)) == keep(rows[i]) && fits(rows[i], vals[i])
    ensures |Pick(keys, vals, k)| == |Filter(rows, keep)|
    ensures forall i :: 0 <= i < |Filter(rows, keep)| ==> fits(Filter(rows, keep)[i], Pick(keys, vals, k)[i])
  {
    if rows != [] {
      var n := |rows| - 1;
      PickFollows(rows[..n], keep, fits, keys[..n], vals[..n], k);
    }
  }

  lemma {:induction false} SortConstant<T(!new)>(s: seq<T>, rank: T -> int)
    requires forall x, y :: rank(x) == rank(y)
    ensures SortBy(s, rank) == s
  {
    if s != [] {
      SortConstant(s[..|s| - 1], rank);
    }
  }

  /** The members of `s` that satisfy `keep`, each as often as it stands there, in order. */
  ghost predicate SubList<T(!new)>(s: seq<T>, keep: T -> bool, part: seq<T>) {
    Answers(s, keep, (x: T) => 0, None, None, part)
  }

  lemma {:induction false} FilterIsSubList<T(!new)>(s: seq<T>, keep: T -> bool)
    ensures SubList(s, keep, Filter(s, keep))
  {
    var rank := (x: T) => 0;
    SortConstant(Filter(s, keep), rank);
    hide Answers, Filter;
    SelectionExactly(s, keep, rank, None, None, Filter(s, keep));
  }

  /**
   * With any window on the children query: one answer is fetched for all the accounts together, and
   * each account's children are its own in it, in order.
   */
  lemma {:induction false} BatchChildrenListed(
    S: set<object>, db: Database, e: AccountEdges, fields: seq<Column>, rows: seq<AccountRow>, i: nat, n: Account)
    returns (fetched: seq<AccountRow>, own: seq<AccountRow>)
    requires e.withChildren.Some? && i < |rows| && LastHolder(AccountIDs(rows), i)
    requires Denotes(S, n, Batch(db, e, fields, rows)[i])
    ensures var q := e.withChildren.value;
      && ChildrenAnswered(db, q, AccountIDs(rows), fetched)
      && SubList(fetched, (c: AccountRow) => c.parentAccountID == Some(rows[i].id), own)
      && ShowAll(q.fields, q.edges.withProxy.Some?, true, own, n.children)
  {
    hide Denotes, ChildrenAnswered, Shows, AccountRows, ProjectAccount, ColumnsOf, SubList, Batch, Pick, Filter;
    var q, ids, id := e.withChildren.value, AccountIDs(rows), rows[i].id;
    fetched := AccountRows(db, OfParents(q, ids));
    ChildrenAnsweredExactly(db, q, ids, fetched);
    var names := (c: AccountRow) => c.parentAccountID == Some(id);
    own := Filter(fetched, names);
    FilterIsSubList(fetched, names);
    var columns := ColumnsOf(OfParents(q, ids).fields, q.edges);
    var fits := (r: AccountRow, t: AccountTree) => t.row == ProjectAccount(r, columns);
    var forest := Batch(db, q.edges, OfParents(q, ids).fields, fetched);
    forall j | 0 <= j < |fetched| ensures fits(fetched[j], forest[j]) {
      BatchRow(db, q.edges, OfParents(q, ids).fields, fetched, j);
    }
    PickFollows(fetched, names, fits, ParentKeys(fetched), forest, id);
    var t := Batch(db, e, fields, rows)[i];
    BatchChildren(db, e, fields, rows, i);
    NodeRow(S, n, t);
    forall j | 0 <= j < |own| ensures Shows(q.fields, q.edges.withProxy.Some?, true, own[j], n.children[j].row) {
      NodeRow(S, n.children[j], t.children[j]);
      ShownChild(q, ids, own[j], n.children[j].row);
    }
  }
}
