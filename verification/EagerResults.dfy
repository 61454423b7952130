/** What a caller of eager loading sees on the returned nodes. */
module EagerResults {
  import opened Collections
  import opened Schema
  import opened QueryModel
  import opened JoinTheorem
  import opened Graph
  import opened EdgeLaws
  import opened EagerLoading
  import opened ResultNodes

  /**
   * Run a whole query tree. Unless a query below the root is limited or offset, the object graph that
   * comes back is the per-row join of the root rows, edge by edge and at every depth.
   */
  method All(db: Database, query: AccountQuery) returns (ok: bool, nodes: seq<Account>, ghost S: set<object>)
    requires query.Valid() && Unjoined(query.Edges())
    modifies query.Repr
    ensures query.Valid() && query.Repr == old(query.Repr)
    ensures ok && fresh(S)
    ensures var q := old(query.Model());
      && query.Model() == q.(edges := NarrowEdges(db, q.edges, AccountRows(db, q)))
      && Listed(db, q, nodes)
      && AllDenote(S, nodes, Batch(db, q.edges, q.fields, AccountRows(db, q)))
      && (db.Keyed() && Unwindowed(q.edges) ==> AllDenote(S, nodes,
                                                          NaiveForest(db, q.edges, q.fields, AccountRows(db, q))))
  {
    ghost var q := query.Model();
    hide *;
    query.ModelParts();
    ok, nodes, S := query.SqlAll(db);
    if db.Keyed() && Unwindowed(q.edges) {
      EagerIsNaive(db, q);
    }
  }

  /** On other rows a narrowed proxy query still loads exactly the proxies whose keys the first run had. */
  lemma {:induction false} ProxyLost(db: Database, q: ProxyQ, first: seq<Option<int>>, key: Option<int>, p: ProxyRow)
    requires db.Keyed() && q.limit.None? && q.offset.None? && DistinctKeys(first) != []
    ensures NaiveProxy(db, Some(NarrowProxy(q, first)), key) == Some(p)
       <==> NaiveProxy(db, Some(q), key) == Some(p) && key in first
  {
    hide NaiveProxy;
    var ids := DistinctKeys(first);
    ProxyLoaded(db, NarrowProxy(q, first), key, p);
    ProxyLoaded(db, q, key, p);
    var narrowed := q.predicates + [ProxyIDIn(ids)];
    assert forall i :: 0 <= i < |q.predicates| ==> narrowed[i] == q.predicates[i];
    assert narrowed[|q.predicates|] == ProxyIDIn(ids);
  }

  /**
   * The accessor reports the left join: the proxy the key names if it exists and passes the proxy
   * query, NotFound for a nil or dangling key, NotLoaded only if the edge was not requested.
   */
  lemma {:induction false} ProxyOrErrIsLeftJoin(
    S: set<object>, db: Database, e: AccountEdges, fields: seq<Column>, r: AccountRow, n: Account)
    requires db.Keyed() && Denotes(S, n, Naive(db, e, fields, r))
    requires e.withProxy.Some? ==> e.withProxy.value.limit.None? && e.withProxy.value.offset.None?
    ensures n.ProxyOrErr().NotLoaded? <==> e.withProxy.None?
    ensures e.withProxy.Some? ==>
      (n.ProxyOrErr().NotFound? <==>
         !exists p :: p in db.proxies && r.proxyID == Some(p.id) && AllProxyHold(e.withProxy.value.predicates, p))
    ensures n.ProxyOrErr().Found? ==>
      var p := n.ProxyOrErr().node.row;
      p in db.proxies && r.proxyID == Some(p.id) && AllProxyHold(e.withProxy.value.predicates, p)
  {
    hide AllProxyHold;
    if e.withProxy.Some? {
      var q := e.withProxy.value;
      var t := NaiveProxy(db, Some(q), r.proxyID);
      if t.Some? {
        ProxyLoaded(db, q, r.proxyID, t.value);
      }
      forall p | p in db.proxies && r.proxyID == Some(p.id) && AllProxyHold(q.predicates, p) ensures t == Some(p) {
        ProxyLoaded(db, q, r.proxyID, p);
      }
    }
  }

  /** The same for the parent; the parent node carries the selected columns of the account the key names. */
  lemma {:induction false} ParentOrErrIsLeftJoin(
    S: set<object>, db: Database, e: AccountEdges, fields: seq<Column>, r: AccountRow, n: Account)
    requires db.Keyed() && Denotes(S, n, Naive(db, e, fields, r))
    requires e.withParent.Some? ==> e.withParent.value.limit.None? && e.withParent.value.offset.None?
    ensures n.ParentOrErr().NotLoaded? <==> e.withParent.None?
    ensures e.withParent.Some? ==>
      (n.ParentOrErr().NotFound? <==> forall a :: a in db.accounts ==> !Names(e.withParent.value, r, a))
    ensures n.ParentOrErr().Found? ==> exists a ::
      a in db.accounts && Names(e.withParent.value, r, a)
      && n.ParentOrErr().node.row == ProjectAccount(a, ColumnsOf(e.withParent.value.fields, e.withParent.value.edges))
  {
    hide Denotes;
    ParentDenoted(S, n, Naive(db, e, fields, r));
    if e.withParent.Some? {
      var q := e.withParent.value;
      var t := NaiveParent(db, Some(q), r.parentAccountID);
      hide NaiveParent, AllHold;
      forall a | a in db.accounts && Names(q, r, a) ensures t.Some? {
        ParentLoaded(db, q, a, r);
      }
      if t.Some? {
        var a := ParentRow(db, q, r);
        assert Names(q, r, a);
      }
    }
  }

  /** Account r names a as its parent, and a passes the parent query. */
  predicate Names(q: AccountQ, r: AccountRow, a: AccountRow) {
    r.parentAccountID == Some(a.id) && AllHold(q.predicates, a)
  }

  lemma {:induction false} ParentDenoted(S: set<object>, n: Account, t: AccountTree)
    requires Denotes(S, n, t)
    ensures n.ParentOrErr().NotLoaded? <==> t.parent.None? && !t.loaded.parent
    ensures n.ParentOrErr().NotFound? <==> t.parent.None? && t.loaded.parent
    ensures n.ParentOrErr().Found? ==> t.parent.Some? && n.ParentOrErr().node.row == t.parent.value.row
  {
  }

  lemma {:induction false} ParentRow(db: Database, q: AccountQ, r: AccountRow) returns (a: AccountRow)
    requires q.limit.None? && q.offset.None? && NaiveParent(db, Some(q), r.parentAccountID).Some?
    ensures a in db.accounts && r.parentAccountID == Some(a.id) && AllHold(q.predicates, a)
    ensures NaiveParent(db, Some(q), r.parentAccountID).value.row == ProjectAccount(a, ColumnsOf(q.fields, q.edges))
  {
    hide AccountRows, AllHold, ProjectAccount;
    var k := r.parentAccountID.value;
    var rows := AccountRows(db, OfIDs(q, [k]));
    NaiveAccountIs(db, q, k);
    a := rows[|rows| - 1];
    assert a in rows;
    IDRows(db, q, k, a);
  }

  /** The list accessors report NotLoaded exactly if the edge was not requested, and else the per-row join. */
  lemma {:induction false} ListsAreJoins(
    S: set<object>, db: Database, e: AccountEdges, fields: seq<Column>, r: AccountRow, n: Account)
    requires Denotes(S, n, Naive(db, e, fields, r))
    ensures n.GroupsOrErr().NotLoaded? <==> e.withGroups.None?
    ensures e.withGroups.Some? ==>
      n.GroupsOrErr().Found? && GroupsDenote(n.GroupsOrErr().node, NaiveGroups(db, e.withGroups, r.id))
    ensures n.ChildrenOrErr().NotLoaded? <==> e.withChildren.None?
    ensures e.withChildren.Some? ==>
      n.ChildrenOrErr().Found? && AllDenote(S, n.ChildrenOrErr().node, NaiveChildren(db, e.withChildren, r.id))
    ensures n.AccountGroupsOrErr().NotLoaded? <==> e.withAccountGroups.None?
    ensures e.withAccountGroups.Some? ==>
      && n.AccountGroupsOrErr().Found?
      && AllLinksDenote(S, n.AccountGroupsOrErr().node, NaiveAccountGroups(db, e.withAccountGroups, r.id))
  {
    hide NaiveGroups, NaiveChildren, NaiveAccountGroups;
  }
}
