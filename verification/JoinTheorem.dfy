/** Eager loading in batches is the per-row join. */
module JoinTheorem {
  import opened Collections
  import opened Schema
  import opened QueryModel

  // Selecting more narrowly filters the wider selection.

  lemma {:induction false} SelectNarrower<T(!new)>(table: seq<T>, wide: T -> bool, narrow: T -> bool, extra: T -> bool,
                                                   order: T -> int)
    requires forall x :: x in table ==> narrow(x) == (wide(x) && extra(x))
    ensures Select(table, narrow, order, None, None) == Filter(Select(table, wide, order, None, None), extra)
  {
    FilterSortBy(Filter(table, wide), order, extra);
    FilterFilter(table, extra, wide, narrow);
  }

  lemma {:induction false} SelectMember<T(!new)>(table: seq<T>, keep: T -> bool, order: T -> int,
                              limit: Option<nat>, offset: Option<nat>, x: T)
    requires x in Select(table, keep, order, limit, offset)
    ensures x in table && keep(x)
  {
    SortByMember(Filter(table, keep), order, x);
  }

  lemma {:induction false} SelectUnique<T(!new)>(table: seq<T>, keep: T -> bool, order: T -> int,
                              limit: Option<nat>, offset: Option<nat>, key: T -> int)
    requires Unique(table, key)
    ensures Unique(Select(table, keep, order, limit, offset), key)
  {
    FilterUnique(table, keep, key);
    SortByUnique(Filter(table, keep), order, key);
  }

  lemma {:induction false} AllHoldAppend(ps: seq<AccountPredicate>, p: AccountPredicate, r: AccountRow)
    ensures AllHold(ps + [p], r) == (AllHold(ps, r) && p.Holds(r))
  {
    assert forall i :: 0 <= i < |ps| ==> (ps + [p])[i] == ps[i];
    assert (ps + [p])[|ps|] == p;
  }

  lemma {:induction false} RowsOfOneID(db: Database, q: AccountQ, ids: seq<int>, k: int)
    requires k in ids && q.limit.None? && q.offset.None?
    ensures AccountRows(db, OfIDs(q, [k])) == Filter(AccountRows(db, OfIDs(q, ids)), WithID(k))
  {
    var wide := Keeps(OfIDs(q, ids).predicates);
    var narrow := Keeps(OfIDs(q, [k]).predicates);
    forall r | r in db.accounts ensures narrow(r) == (wide(r) && r.id == k) {
      AllHoldAppend(q.predicates, AccountIDIn(ids), r);
      AllHoldAppend(q.predicates, AccountIDIn([k]), r);
    }
    SelectNarrower(db.accounts, wide, narrow, WithID(k), q.order);
  }

  lemma {:induction false} RowsOfOneParent(db: Database, q: AccountQ, ids: seq<int>, k: int)
    requires k in ids && q.limit.None? && q.offset.None?
    ensures AccountRows(db, OfParents(q, [k]))
         == Filter(AccountRows(db, OfParents(q, ids)), WithParent(k))
  {
    var wide := Keeps(OfParents(q, ids).predicates);
    var narrow := Keeps(OfParents(q, [k]).predicates);
    forall r | r in db.accounts ensures narrow(r) == (wide(r) && r.parentAccountID == Some(k)) {
      AllHoldAppend(q.predicates, ParentIn(ids), r);
      AllHoldAppend(q.predicates, ParentIn([k]), r);
    }
    SelectNarrower(db.accounts, wide, narrow, WithParent(k), q.order);
  }

  lemma {:induction false} RowsOfOneProxy(db: Database, q: ProxyQ, ids: seq<int>, k: int)
    requires k in ids && q.limit.None? && q.offset.None?
    ensures ProxyRows(db, OfProxies(q, [k])) == Filter(ProxyRows(db, OfProxies(q, ids)), ProxyWithID(k))
  {
    var wide := KeepsProxy(OfProxies(q, ids).predicates);
    var narrow := KeepsProxy(OfProxies(q, [k]).predicates);
    forall r | r in db.proxies ensures narrow(r) == (wide(r) && r.id == k) {
      assert forall i :: 0 <= i < |q.predicates| ==>
        OfProxies(q, ids).predicates[i] == q.predicates[i] == OfProxies(q, [k]).predicates[i];
      assert OfProxies(q, ids).predicates[|q.predicates|] == ProxyIDIn(ids);
      assert OfProxies(q, [k]).predicates[|q.predicates|] == ProxyIDIn([k]);
    }
    SelectNarrower(db.proxies, wide, narrow, ProxyWithID(k), q.order);
  }

  lemma {:induction false} RowsOfOneGroup(db: Database, q: GroupQ, ids: seq<int>, k: int)
    requires k in ids && q.limit.None? && q.offset.None?
    ensures GroupRows(db, OfGroups(q, [k])) == Filter(GroupRows(db, OfGroups(q, ids)), GroupWithID(k))
  {
    var wide := KeepsGroup(OfGroups(q, ids).predicates);
    var narrow := KeepsGroup(OfGroups(q, [k]).predicates);
    forall r | r in db.groups ensures narrow(r) == (wide(r) && r.id == k) {
      assert forall i :: 0 <= i < |q.predicates| ==>
        OfGroups(q, ids).predicates[i] == q.predicates[i] == OfGroups(q, [k]).predicates[i];
      assert OfGroups(q, ids).predicates[|q.predicates|] == GroupIDIn(ids);
      assert OfGroups(q, [k]).predicates[|q.predicates|] == GroupIDIn([k]);
    }
    SelectNarrower(db.groups, wide, narrow, GroupWithID(k), q.order);
  }

  lemma {:induction false} LinksOfOneAccount(db: Database, q: AccountGroupQ, ids: seq<int>, k: int)
    requires k in ids && q.limit.None? && q.offset.None?
    ensures AccountGroupRows(db, OfAccounts(q, [k]))
         == Filter(AccountGroupRows(db, OfAccounts(q, ids)), OfAccount(k))
  {
    var wide := KeepsLink(OfAccounts(q, ids).predicates);
    var narrow := KeepsLink(OfAccounts(q, [k]).predicates);
    forall r | r in db.accountGroups ensures narrow(r) == (wide(r) && r.accountID == k) {
      assert forall i :: 0 <= i < |q.predicates| ==>
        OfAccounts(q, ids).predicates[i] == q.predicates[i] == OfAccounts(q, [k]).predicates[i];
      assert OfAccounts(q, ids).predicates[|q.predicates|] == AccountGroupAccountIn(ids);
      assert OfAccounts(q, [k]).predicates[|q.predicates|] == AccountGroupAccountIn([k]);
    }
    SelectNarrower(db.accountGroups, wide, narrow, OfAccount(k), q.order);
  }

  // Looking a key up in a batch is filtering the batch.

  /** One-to-many lookup among the images of `rows` is the image of the rows with that key. */
  lemma {:induction false} PickIsFilter<R(!new), T>(rows: seq<R>, keep: R -> bool, f: R -> T,
                                                    keys: seq<Option<int>>, vals: seq<T>, k: int)
    requires |keys| == |vals| == |rows|
    requires forall i :: 0 <= i < |rows| ==> (keys[i] == Some(k)) == keep(rows[i]) && vals[i] == f(rows[i])
    ensures Pick(keys, vals, k) == Map(Filter(rows, keep), f)
  {
    if rows != [] {
      var n := |rows| - 1;
      PickIsFilter(rows[..n], keep, f, keys[..n], vals[..n], k);
      assert rows == rows[..n] + [rows[n]];
      MapAppend(Filter(rows[..n], keep), rows[n], f);
    }
  }

  ghost function WithID(k: int): AccountRow -> bool { (r: AccountRow) => r.id == k }
  ghost function WithParent(k: int): AccountRow -> bool { (r: AccountRow) => r.parentAccountID == Some(k) }
  ghost function ProxyWithID(k: int): ProxyRow -> bool { (r: ProxyRow) => r.id == k }
  ghost function GroupWithID(k: int): GroupRow -> bool { (r: GroupRow) => r.id == k }
  ghost function OfAccount(k: int): AccountGroupRow -> bool { (r: AccountGroupRow) => r.accountID == k }

  lemma {:induction false} PickTrees(db: Database, e: AccountEdges, fields: seq<Column>, rows: seq<AccountRow>,
                  keys: seq<Option<int>>, k: int, keep: AccountRow -> bool)
    requires |keys| == |rows|
    requires forall i :: 0 <= i < |rows| ==> (keys[i] == Some(k)) == keep(rows[i])
    ensures Pick(keys, NaiveForest(db, e, fields, rows), k) == NaiveForest(db, e, fields, Filter(rows, keep))
  {
    PickIsFilter(rows, keep, r => Naive(db, e, fields, r), keys, NaiveForest(db, e, fields, rows), k);
  }

  lemma {:induction false} PickLinkTrees(db: Database, e: AccountGroupEdges, fields: seq<AccountGroupColumn>,
                                         rows: seq<AccountGroupRow>, k: int)
    ensures Pick(LinkAccountKeys(rows), LinkNaiveForest(db, e, fields, rows), k)
         == LinkNaiveForest(db, e, fields, Filter(rows, OfAccount(k)))
  {
    PickIsFilter(rows, OfAccount(k), r => LinkNaive(db, e, fields, r), LinkAccountKeys(rows),
                 LinkNaiveForest(db, e, fields, rows), k);
  }

  // The many-to-many join.

  ghost predicate Linked(links: seq<AccountGroupRow>, ids: seq<int>, g: int) {
    exists l :: l in links && l.groupID == g && l.accountID in ids
  }

  lemma {:induction false} JoinsOfMember(links: seq<AccountGroupRow>, ids: seq<int>, g: GroupRow, a: int)
    ensures JoinRow(a, g) in JoinsOf(links, ids, g)
       <==> a in ids && exists l :: l in links && l.groupID == g.id && l.accountID == a
  {
    if links != [] {
      var n := |links| - 1;
      assert links == links[..n] + [links[n]];
      JoinsOfMember(links[..n], ids, g, a);
    }
  }

  lemma {:induction false} JoinsOfEmpty(links: seq<AccountGroupRow>, ids: seq<int>, g: GroupRow)
    ensures JoinsOf(links, ids, g) != [] <==> Linked(links, ids, g.id)
  {
    var js := JoinsOf(links, ids, g);
    if js != [] {
      assert js[0] in js && js[0] == JoinRow(js[0].accountID, g);
      JoinsOfMember(links, ids, g, js[0].accountID);
    }
    if Linked(links, ids, g.id) {
      var l :| l in links && l.groupID == g.id && l.accountID in ids;
      JoinsOfMember(links, ids, g, l.accountID);
    }
  }

  lemma {:induction false} JoinStreamMember(groups: seq<GroupRow>, links: seq<AccountGroupRow>, ids: seq<int>,
                                            j: JoinRow)
    ensures j in JoinStream(groups, links, ids)
       <==> j.group in groups && j.accountID in ids
            && exists l :: l in links && l.groupID == j.group.id && l.accountID == j.accountID
  {
    if groups != [] {
      var n := |groups| - 1;
      assert groups == groups[..n] + [groups[n]];
      JoinStreamMember(groups[..n], links, ids, j);
      if j.group == groups[n] {
        JoinsOfMember(links, ids, groups[n], j.accountID);
      }
    }
  }

  /** The first row of a stream with a given group. */
  ghost predicate FirstAt(stream: seq<JoinRow>, g: int, k: nat) {
    k < |stream| && stream[k].group.id == g && forall j :: 0 <= j < k ==> stream[j].group.id != g
  }

  lemma {:induction false} GroupNodesHeld(stream: seq<JoinRow>, id: int)
    requires Holds(GroupNodes(stream), id)
    ensures exists k :: 0 <= k < |stream| && stream[k].group.id == id
  {
    var n := |stream| - 1;
    if stream[n].group.id != id {
      assert Holds(GroupNodes(stream[..n]), id) by {
        var k :| 0 <= k < |GroupNodes(stream)| && GroupNodes(stream)[k].id == id;
        assert k < |GroupNodes(stream[..n])| && GroupNodes(stream[..n])[k].id == id;
      }
      GroupNodesHeld(stream[..n], id);
      var k :| 0 <= k < n && stream[..n][k].group.id == id;
      assert stream[k].group.id == id;
    }
  }

  /** No group of the stream is lost. */
  lemma {:induction false} GroupNodesCover(stream: seq<JoinRow>, k: nat)
    requires k < |stream|
    ensures Holds(GroupNodes(stream), stream[k].group.id)
  {
    var n := |stream| - 1;
    HoldsAfter(GroupNodes(stream[..n]), stream[n].group);
    if k < n {
      GroupNodesCover(stream[..n], k);
    }
  }

  lemma {:induction false} FirstInPrefix(stream: seq<JoinRow>, n: nat, g: int, a: nat)
    requires n <= |stream| && FirstAt(stream, g, a) && exists k :: 0 <= k < n && stream[..n][k].group.id == g
    ensures FirstAt(stream[..n], g, a)
  {
  }

  /**
   * Every group of a stream becomes one node, taken from its first row, and the nodes come in order
   * of those first rows.
   */
  lemma {:induction false} GroupNodesInFirstOrder(stream: seq<JoinRow>, i: nat, j: nat, a: nat, b: nat)
    requires i < j < |GroupNodes(stream)|
    requires FirstAt(stream, GroupNodes(stream)[i].id, a) && FirstAt(stream, GroupNodes(stream)[j].id, b)
    ensures a < b && stream[a].group == GroupNodes(stream)[i]
  {
    hide Holds;
    var n := |stream| - 1;
    var before := GroupNodes(stream[..n]);
    FirstOfNode(stream[..n], i);
    FirstInPrefix(stream, n, before[i].id, a);
    if j < |before| {
      FirstOfNode(stream[..n], j);
      FirstInPrefix(stream, n, before[j].id, b);
      GroupNodesInFirstOrder(stream[..n], i, j, a, b);
    } else {
      assert !Holds(before, stream[n].group.id);
      NodeRow(stream[..n], i, a);
      if b < n {
        GroupNodesCover(stream[..n], b);
      }
    }
  }

  lemma {:induction false} FirstOfNode(stream: seq<JoinRow>, i: nat)
    requires i < |GroupNodes(stream)|
    ensures exists k :: 0 <= k < |stream| && stream[k].group.id == GroupNodes(stream)[i].id
  {
    GroupNodesHeld(stream, GroupNodes(stream)[i].id);
  }

  lemma {:induction false} NodeRow(stream: seq<JoinRow>, i: nat, a: nat)
    requires i < |GroupNodes(stream)| && FirstAt(stream, GroupNodes(stream)[i].id, a)
    ensures stream[a].group == GroupNodes(stream)[i]
  {
    hide Holds;
    var n := |stream| - 1;
    var before := GroupNodes(stream[..n]);
    if i < |before| {
      FirstOfNode(stream[..n], i);
      FirstInPrefix(stream, n, before[i].id, a);
      NodeRow(stream[..n], i, a);
    } else if a < n {
      GroupNodesCover(stream[..n], a);
    }
  }

  lemma {:induction false} GroupNodesUnique(stream: seq<JoinRow>)
    ensures Unique(GroupNodes(stream), (g: GroupRow) => g.id)
  {
    if stream != [] {
      GroupNodesUnique(stream[..|stream| - 1]);
    }
  }

  /** An account's groups are exactly those the stream joins to it, each once. */
  lemma {:induction false} GroupsOfExactly(stream: seq<JoinRow>, a: int)
    ensures Unique(GroupsOf(stream, a), (g: GroupRow) => g.id)
    ensures forall id :: Holds(GroupsOf(stream, a), id) <==> Joins(stream, a, id)
  {
    GroupNodesUnique(stream);
    FilterUnique(GroupNodes(stream), (g: GroupRow) => Joins(stream, a, g.id), (g: GroupRow) => g.id);
    forall id ensures Holds(GroupsOf(stream, a), id) <==> Joins(stream, a, id) {
      hide GroupNodes, Joins, Filter;
      if Holds(GroupsOf(stream, a), id) {
        var k :| 0 <= k < |GroupsOf(stream, a)| && GroupsOf(stream, a)[k].id == id;
        assert GroupsOf(stream, a)[k] in GroupsOf(stream, a);
      }
      if Joins(stream, a, id) {
        JoinedIsNode(stream, a, id);
        var g :| g in GroupNodes(stream) && g.id == id;
        assert g in GroupsOf(stream, a);
        var k :| 0 <= k < |GroupsOf(stream, a)| && GroupsOf(stream, a)[k] == g;
      }
    }
  }

  lemma {:induction false} JoinedIsNode(stream: seq<JoinRow>, a: int, id: int)
    requires Joins(stream, a, id)
    ensures exists g :: g in GroupNodes(stream) && g.id == id
  {
    var j :| j in stream && j.accountID == a && j.group.id == id;
    var k :| 0 <= k < |stream| && stream[k] == j;
    GroupNodesCover(stream, k);
  }

  /** A run of rows of one new group adds that group once. */
  lemma {:induction false} GroupNodesAppend(s: seq<JoinRow>, t: seq<JoinRow>, g: GroupRow)
    requires forall j :: j in t ==> j.group == g
    requires !Holds(GroupNodes(s), g.id)
    ensures GroupNodes(s + t) == GroupNodes(s) + (if t == [] then [] else [g])
  {
    if t == [] {
      assert s + t == s;
    } else {
      var n := |t| - 1;
      GroupNodesAppend(s, t[..n], g);
      assert (s + t)[..|s| + n] == s + t[..n];
      assert t[n] in t;
      var before := GroupNodes(s + t[..n]);
      if n == 0 {
        assert before == GroupNodes(s);
      } else {
        assert before[|GroupNodes(s)|].id == g.id;
      }
    }
  }

  /** The groups loaded from a join are the selected groups with some link, in selection order. */
  lemma {:induction false} GroupNodesOfJoin(groups: seq<GroupRow>, links: seq<AccountGroupRow>, ids: seq<int>)
    requires Unique(groups, (g: GroupRow) => g.id)
    ensures GroupNodes(JoinStream(groups, links, ids)) == Filter(groups, (g: GroupRow) => Linked(links, ids, g.id))
  {
    if groups != [] {
      var n := |groups| - 1;
      assert groups == groups[..n] + [groups[n]];
      GroupNodesOfJoin(groups[..n], links, ids);
      var before := GroupNodes(JoinStream(groups[..n], links, ids));
      forall k | 0 <= k < |before| ensures before[k].id != groups[n].id {
        assert before[k] in before;
        var i :| 0 <= i < n && groups[i] == before[k];
      }
      JoinsOfEmpty(links, ids, groups[n]);
      GroupNodesAppend(JoinStream(groups[..n], links, ids), JoinsOf(links, ids, groups[n]), groups[n]);
    }
  }

  lemma {:induction false} GroupsOfJoin(groups: seq<GroupRow>, links: seq<AccountGroupRow>, ids: seq<int>, a: int)
    requires Unique(groups, (g: GroupRow) => g.id)
    requires a in ids
    ensures GroupsOf(JoinStream(groups, links, ids), a) == GroupNodes(JoinStream(groups, links, [a]))
  {
    var stream := JoinStream(groups, links, ids);
    GroupNodesOfJoin(groups, links, ids);
    GroupNodesOfJoin(groups, links, [a]);
    var linked := (g: GroupRow) => Linked(links, ids, g.id);
    var joins := (g: GroupRow) => Joins(stream, a, g.id);
    var own := (g: GroupRow) => Linked(links, [a], g.id);
    forall g | g in groups ensures own(g) == (linked(g) && joins(g)) {
      if own(g) {
        var l :| l in links && l.groupID == g.id && l.accountID == a;
        JoinStreamMember(groups, links, ids, JoinRow(a, g));
      }
      if joins(g) {
        var j :| j in stream && j.accountID == a && j.group.id == g.id;
        JoinStreamMember(groups, links, ids, j);
      }
    }
    FilterFilter(groups, joins, linked, own);
  }

  // The theorem.

  ghost predicate DistinctIDs(rows: seq<AccountRow>) {
    Unique(rows, (r: AccountRow) => r.id)
  }

  lemma {:induction false} GroupsEdgeIsNaive(db: Database, edge: Option<GroupQ>, ids: seq<int>, i: nat)
    requires db.Keyed() && (edge.Some? ==> edge.value.limit.None? && edge.value.offset.None?)
    requires i < |ids| && LastHolder(ids, i)
    ensures GroupsEdge(db, edge, ids)[i] == NaiveGroups(db, edge, ids[i])
  {
    if edge.Some? {
      var q := edge.value;
      var keep, id := KeepsGroup(q.predicates), (g: GroupRow) => g.id;
      FilterUnique(db.groups, keep, id);
      SortByUnique(Filter(db.groups, keep), q.order, id);
      GroupsOfJoin(SortBy(Filter(db.groups, keep), q.order), db.accountGroups, ids, ids[i]);
    }
  }

  lemma {:induction false} ProxyEdgeIsNaive(db: Database, edge: Option<ProxyQ>, keys: seq<Option<int>>, i: nat)
    requires edge.Some? ==> edge.value.limit.None? && edge.value.offset.None?
    requires i < |keys|
    ensures ProxyEdge(db, edge, keys)[i] == NaiveProxy(db, edge, keys[i])
  {
    hide ProxyRows, Filter, Pick, PickLast;
    if edge.Some? && keys[i].Some? {
      var q, ids, k := edge.value, DistinctKeys(keys), keys[i].value;
      assert keys[i] in keys;
      var rows := ProxyRows(db, OfProxies(q, ids));
      PickLastOfPick(ProxyIDKeys(rows), rows, k);
      PickIsFilter(rows, ProxyWithID(k), (r: ProxyRow) => r, ProxyIDKeys(rows), rows, k);
      RowsOfOneProxy(db, q, ids, k);
    }
  }

  lemma {:induction false} LinkGroupEdgeIsNaive(db: Database, edge: Option<GroupQ>, keys: seq<Option<int>>, i: nat)
    requires edge.Some? ==> edge.value.limit.None? && edge.value.offset.None?
    requires i < |keys|
    ensures LinkGroupEdge(db, edge, keys)[i] == NaiveLinkGroup(db, edge, keys[i])
  {
    hide GroupRows, Filter, Pick, PickLast;
    if edge.Some? && keys[i].Some? {
      var q, ids, k := edge.value, DistinctKeys(keys), keys[i].value;
      assert keys[i] in keys;
      var rows := GroupRows(db, OfGroups(q, ids));
      PickLastOfPick(GroupIDKeys(rows), rows, k);
      PickIsFilter(rows, GroupWithID(k), (r: GroupRow) => r, GroupIDKeys(rows), rows, k);
      RowsOfOneGroup(db, q, ids, k);
    }
  }

  lemma {:induction false} AccountEdgeIsNaive(db: Database, edge: Option<AccountQ>, keys: seq<Option<int>>, i: nat)
    requires db.Keyed() && (edge.Some? ==> UnwindowedQuery(edge.value))
    requires i < |keys|
    ensures AccountEdge(db, edge, keys)[i] == NaiveParent(db, edge, keys[i])
    decreases edge
  {
    if edge.Some? && keys[i].Some? {
      var q, ids, k := edge.value, DistinctKeys(keys), keys[i].value;
      assert keys[i] in keys;
      var rows := AccountRows(db, OfIDs(q, ids));
      SelectUnique(db.accounts, Keeps(OfIDs(q, ids).predicates), q.order, None, None, (r: AccountRow) => r.id);
      BatchIsNaive(db, q.edges, q.fields, rows);
      PickLastOfPick(IDKeys(rows), NaiveForest(db, q.edges, q.fields, rows), k);
      PickTrees(db, q.edges, q.fields, rows, IDKeys(rows), k, WithID(k));
      RowsOfOneID(db, q, ids, k);
    }
  }

  lemma {:induction false} ChildrenEdgeIsNaive(db: Database, edge: Option<AccountQ>, ids: seq<int>, i: nat)
    requires db.Keyed() && (edge.Some? ==> UnwindowedQuery(edge.value))
    requires i < |ids| && LastHolder(ids, i)
    ensures ChildrenEdge(db, edge, ids)[i] == NaiveChildren(db, edge, ids[i])
    decreases edge
  {
    if edge.Some? {
      var q, id := edge.value, ids[i];
      var rows, fields := AccountRows(db, OfParents(q, ids)), OfParents(q, ids).fields;
      SelectUnique(db.accounts, Keeps(OfParents(q, ids).predicates), q.order, None, None, (r: AccountRow) => r.id);
      BatchIsNaive(db, q.edges, fields, rows);
      PickTrees(db, q.edges, fields, rows, ParentKeys(rows), id, WithParent(id));
      RowsOfOneParent(db, q, ids, id);
    }
  }

  lemma {:induction false} AccountGroupsEdgeIsNaive(db: Database, edge: Option<AccountGroupQ>, ids: seq<int>, i: nat)
    requires db.Keyed()
    requires edge.Some? ==> edge.value.limit.None? && edge.value.offset.None? && UnwindowedLinks(edge.value.edges)
    requires i < |ids| && LastHolder(ids, i)
    ensures AccountGroupsEdge(db, edge, ids)[i] == NaiveAccountGroups(db, edge, ids[i])
    decreases edge
  {
    if edge.Some? {
      var q := edge.value;
      var rows, fields := AccountGroupRows(db, OfAccounts(q, ids)), OfAccounts(q, ids).fields;
      LinkBatchIsNaive(db, q.edges, fields, rows);
      PickLinkTrees(db, q.edges, fields, rows, ids[i]);
      LinksOfOneAccount(db, q, ids, ids[i]);
    }
  }

  lemma {:induction false} LinkBatchIsNaive(db: Database, e: AccountGroupEdges, fields: seq<AccountGroupColumn>,
                                            rows: seq<AccountGroupRow>)
    requires db.Keyed() && UnwindowedLinks(e)
    ensures LinkBatch(db, e, fields, rows) == LinkNaiveForest(db, e, fields, rows)
    decreases e
  {
    forall i | 0 <= i < |rows| ensures LinkBatch(db, e, fields, rows)[i] == LinkNaive(db, e, fields, rows[i]) {
      AccountEdgeIsNaive(db, e.withAccount, LinkAccountKeys(rows), i);
      LinkGroupEdgeIsNaive(db, e.withGroup, LinkGroupKeys(rows), i);
    }
  }

  /**
   * The loaders' batches build, for every query tree, the trees of the per-row join.
   * A limit or an offset below the root is the one thing excluded; the lemmas on limits in EdgeLaws say
   * when one is harmless.
   */
  lemma {:induction false} BatchIsNaive(db: Database, e: AccountEdges, fields: seq<Column>, rows: seq<AccountRow>)
    requires db.Keyed() && Unwindowed(e) && DistinctIDs(rows)
    ensures Batch(db, e, fields, rows) == NaiveForest(db, e, fields, rows)
    decreases e
  {
    hide GroupsEdge, ProxyEdge, AccountEdge, ChildrenEdge, AccountGroupsEdge, ProjectAccount, ColumnsOf,
         NaiveGroups, NaiveProxy, NaiveParent, NaiveChildren, NaiveAccountGroups;
    forall i | 0 <= i < |rows| ensures Batch(db, e, fields, rows)[i] == Naive(db, e, fields, rows[i]) {
      assert LastHolder(AccountIDs(rows), i);
      GroupsEdgeIsNaive(db, e.withGroups, AccountIDs(rows), i);
      ProxyEdgeIsNaive(db, e.withProxy, ProxyKeys(rows), i);
      AccountEdgeIsNaive(db, e.withParent, ParentKeys(rows), i);
      ChildrenEdgeIsNaive(db, e.withChildren, AccountIDs(rows), i);
      AccountGroupsEdgeIsNaive(db, e.withAccountGroups, AccountIDs(rows), i);
    }
  }
}
