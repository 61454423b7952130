/**
 * Query trees as values, and the two meanings of eager loading:
 * `Batch` is what the loaders compute (one nested query per edge for all the rows at once),
 * `Naive` is the per-row nested-loop join they stand for.
 */
module QueryModel {
  import opened Collections
  import opened Schema

  datatype AccountPredicate =
    | AccountIDIn(ids: seq<int>)
    | ParentIn(ids: seq<int>)
    | AccountWhere(holds: AccountRow -> bool)
  {
    predicate Holds(r: AccountRow) {
      match this
      case AccountIDIn(ids) => r.id in ids
      case ParentIn(ids) => r.parentAccountID.Some? && r.parentAccountID.value in ids
      case AccountWhere(f) => f(r)
    }
  }

  datatype ProxyPredicate = ProxyIDIn(ids: seq<int>) | ProxyWhere(holds: ProxyRow -> bool) {
    predicate Holds(r: ProxyRow) {
      match this
      case ProxyIDIn(ids) => r.id in ids
      case ProxyWhere(f) => f(r)
    }
  }

  datatype GroupPredicate = GroupIDIn(ids: seq<int>) | GroupWhere(holds: GroupRow -> bool) {
    predicate Holds(r: GroupRow) {
      match this
      case GroupIDIn(ids) => r.id in ids
      case GroupWhere(f) => f(r)
    }
  }

  datatype AccountGroupPredicate =
    | AccountGroupAccountIn(ids: seq<int>)
    | AccountGroupWhere(holds: AccountGroupRow -> bool)
  {
    predicate Holds(r: AccountGroupRow) {
      match this
      case AccountGroupAccountIn(ids) => r.accountID in ids
      case AccountGroupWhere(f) => f(r)
    }
  }

  // Query trees. `joined` is set once the groups loader has rewritten the selector of a group query.

  datatype AccountQ = AccountQ(
    fields: seq<Column>, predicates: seq<AccountPredicate>, order: AccountRow -> int,
    limit: Option<nat>, offset: Option<nat>, edges: AccountEdges)

  datatype AccountEdges = AccountEdges(
    withGroups: Option<GroupQ>, withProxy: Option<ProxyQ>, withParent: Option<AccountQ>,
    withChildren: Option<AccountQ>, withAccountGroups: Option<AccountGroupQ>)

  datatype ProxyQ = ProxyQ(
    predicates: seq<ProxyPredicate>, order: ProxyRow -> int, limit: Option<nat>, offset: Option<nat>)

  datatype GroupQ = GroupQ(
    predicates: seq<GroupPredicate>, joined: Option<seq<int>>, order: GroupRow -> int,
    limit: Option<nat>, offset: Option<nat>)

  datatype AccountGroupQ = AccountGroupQ(
    fields: seq<AccountGroupColumn>, predicates: seq<AccountGroupPredicate>, order: AccountGroupRow -> int,
    limit: Option<nat>, offset: Option<nat>, edges: AccountGroupEdges)

  datatype AccountGroupEdges = AccountGroupEdges(withAccount: Option<AccountQ>, withGroup: Option<GroupQ>)

  // Results: the object graph hanging off one node, unfolded into a tree.

  datatype Loaded = Loaded(groups: bool, proxy: bool, parent: bool, children: bool, accountGroups: bool)

  datatype AccountTree = AccountTree(
    row: AccountRow, loaded: Loaded, groups: seq<GroupRow>, proxy: Option<ProxyRow>,
    parent: Option<AccountTree>, children: seq<AccountTree>, accountGroups: seq<AccountGroupTree>)

  datatype AccountGroupTree = AccountGroupTree(
    row: AccountGroupRow, accountLoaded: bool, groupLoaded: bool,
    account: Option<AccountTree>, group: Option<GroupRow>)

  // QueryNodes: WHERE, ORDER BY, OFFSET, LIMIT.

  function Select<T(!new)>(table: seq<T>, keep: T -> bool, order: T -> int, limit: Option<nat>, offset: Option<nat>)
    : seq<T>
  {
    Window(SortBy(Filter(table, keep), order), limit, offset)
  }

  predicate AllHold(ps: seq<AccountPredicate>, r: AccountRow) {
    forall i :: 0 <= i < |ps| ==> ps[i].Holds(r)
  }

  function Keeps(ps: seq<AccountPredicate>): AccountRow -> bool {
    r => AllHold(ps, r)
  }

  function AccountRows(db: Database, q: AccountQ): seq<AccountRow> {
    Select(db.accounts, Keeps(q.predicates), q.order, q.limit, q.offset)
  }

  predicate AllProxyHold(ps: seq<ProxyPredicate>, r: ProxyRow) {
    forall i :: 0 <= i < |ps| ==> ps[i].Holds(r)
  }

  function KeepsProxy(ps: seq<ProxyPredicate>): ProxyRow -> bool {
    r => AllProxyHold(ps, r)
  }

  function ProxyRows(db: Database, q: ProxyQ): seq<ProxyRow> {
    Select(db.proxies, KeepsProxy(q.predicates), q.order, q.limit, q.offset)
  }

  predicate AllGroupHold(ps: seq<GroupPredicate>, r: GroupRow) {
    forall i :: 0 <= i < |ps| ==> ps[i].Holds(r)
  }

  function KeepsGroup(ps: seq<GroupPredicate>): GroupRow -> bool {
    r => AllGroupHold(ps, r)
  }

  function GroupRows(db: Database, q: GroupQ): seq<GroupRow> {
    Select(db.groups, KeepsGroup(q.predicates), q.order, q.limit, q.offset)
  }

  predicate AllAccountGroupHold(ps: seq<AccountGroupPredicate>, r: AccountGroupRow) {
    forall i :: 0 <= i < |ps| ==> ps[i].Holds(r)
  }

  function KeepsLink(ps: seq<AccountGroupPredicate>): AccountGroupRow -> bool {
    r => AllAccountGroupHold(ps, r)
  }

  function AccountGroupRows(db: Database, q: AccountGroupQ): seq<AccountGroupRow> {
    Select(db.accountGroups, KeepsLink(q.predicates), q.order, q.limit, q.offset)
  }

  // The many-to-many join stream: group columns led by the account they are joined to.

  datatype JoinRow = JoinRow(accountID: int, group: GroupRow)

  function JoinsOf(links: seq<AccountGroupRow>, ids: seq<int>, g: GroupRow): (stream: seq<JoinRow>)
    ensures forall j :: j in stream ==> j.group == g && j.accountID in ids
  {
    if links == [] then []
    else
      var n := |links| - 1;
      JoinsOf(links[..n], ids, g)
      + (if links[n].groupID == g.id && links[n].accountID in ids then [JoinRow(links[n].accountID, g)] else [])
  }

  function JoinStream(groups: seq<GroupRow>, links: seq<AccountGroupRow>, ids: seq<int>): (stream: seq<JoinRow>)
    ensures forall j :: j in stream ==> j.group in groups && j.accountID in ids
  {
    if groups == [] then []
    else
      var n := |groups| - 1;
      JoinStream(groups[..n], links, ids) + JoinsOf(links, ids, groups[n])
  }

  /** The rows the groups loader reads: a window of the join of the selected groups with `ids`. */
  function JoinRows(db: Database, q: GroupQ, ids: seq<int>): (stream: seq<JoinRow>)
    ensures forall j :: j in stream ==> j.accountID in ids
  {
    Window(
      JoinStream(SortBy(Filter(db.groups, KeepsGroup(q.predicates)), q.order), db.accountGroups, ids),
      q.limit, q.offset)
  }

  /** The groups of a join stream, each once, in order of first appearance of their identifier. */
  ghost function GroupNodes(stream: seq<JoinRow>): seq<GroupRow> {
    if stream == [] then []
    else
      var n := |stream| - 1;
      var groups := GroupNodes(stream[..n]);
      if Holds(groups, stream[n].group.id) then groups else groups + [stream[n].group]
  }

  ghost predicate Holds(groups: seq<GroupRow>, id: int) {
    exists k :: 0 <= k < |groups| && groups[k].id == id
  }

  lemma {:induction false} HoldsAfter(groups: seq<GroupRow>, g: GroupRow)
    ensures forall id :: Holds(groups + [g], id) <==> Holds(groups, id) || id == g.id
  {
    forall id ensures Holds(groups + [g], id) <==> Holds(groups, id) || id == g.id {
      if Holds(groups, id) {
        var k :| 0 <= k < |groups| && groups[k].id == id;
        assert (groups + [g])[k].id == id;
      }
      assert (groups + [g])[|groups|] == g;
    }
  }

  /** Whether the stream joins account `a` to group `g`. */
  ghost predicate Joins(stream: seq<JoinRow>, a: int, g: int) {
    exists j :: j in stream && j.accountID == a && j.group.id == g
  }

  ghost function GroupsOf(stream: seq<JoinRow>, a: int): seq<GroupRow> {
    Filter(GroupNodes(stream), (g: GroupRow) => Joins(stream, a, g.id))
  }

  /** The groups of every account, read off one stream. */
  ghost function GroupLists(stream: seq<JoinRow>, ids: seq<int>): (r: seq<seq<GroupRow>>)
    ensures |r| == |ids|
  {
    seq(|ids|, i requires 0 <= i < |ids| => if LastHolder(ids, i) then GroupsOf(stream, ids[i]) else [])
  }

  // Keys read off rows.

  function AccountIDs(rows: seq<AccountRow>): (ids: seq<int>)
    ensures |ids| == |rows|
  {
    seq(|rows|, i requires 0 <= i < |rows| => rows[i].id)
  }

  function IDKeys(rows: seq<AccountRow>): (keys: seq<Option<int>>)
    ensures |keys| == |rows|
  {
    seq(|rows|, i requires 0 <= i < |rows| => Some(rows[i].id))
  }

  function ParentKeys(rows: seq<AccountRow>): (keys: seq<Option<int>>)
    ensures |keys| == |rows|
  {
    seq(|rows|, i requires 0 <= i < |rows| => rows[i].parentAccountID)
  }

  function ProxyKeys(rows: seq<AccountRow>): (keys: seq<Option<int>>)
    ensures |keys| == |rows|
  {
    seq(|rows|, i requires 0 <= i < |rows| => rows[i].proxyID)
  }

  function ProxyIDKeys(rows: seq<ProxyRow>): (keys: seq<Option<int>>)
    ensures |keys| == |rows|
  {
    seq(|rows|, i requires 0 <= i < |rows| => Some(rows[i].id))
  }

  function GroupIDKeys(rows: seq<GroupRow>): (keys: seq<Option<int>>)
    ensures |keys| == |rows|
  {
    seq(|rows|, i requires 0 <= i < |rows| => Some(rows[i].id))
  }

  function LinkAccountKeys(rows: seq<AccountGroupRow>): (keys: seq<Option<int>>)
    ensures |keys| == |rows|
  {
    seq(|rows|, i requires 0 <= i < |rows| => Some(rows[i].accountID))
  }

  function LinkGroupKeys(rows: seq<AccountGroupRow>): (keys: seq<Option<int>>)
    ensures |keys| == |rows|
  {
    seq(|rows|, i requires 0 <= i < |rows| => Some(rows[i].groupID))
  }

  // The nested queries the loaders run: `Where` and `AppendFieldOnce` on the query of the edge.

  function OfIDs(q: AccountQ, ids: seq<int>): AccountQ {
    q.(predicates := q.predicates + [AccountIDIn(ids)])
  }

  function OfParents(q: AccountQ, ids: seq<int>): AccountQ {
    q.(fields := AppendFieldOnce(q.fields, ParentAccountID), predicates := q.predicates + [ParentIn(ids)])
  }

  function OfProxies(q: ProxyQ, ids: seq<int>): ProxyQ {
    q.(predicates := q.predicates + [ProxyIDIn(ids)])
  }

  function OfGroups(q: GroupQ, ids: seq<int>): GroupQ {
    q.(predicates := q.predicates + [GroupIDIn(ids)])
  }

  function OfAccounts(q: AccountGroupQ, ids: seq<int>): AccountGroupQ {
    q.(fields := AppendFieldOnce(q.fields, AccountID), predicates := q.predicates + [AccountGroupAccountIn(ids)])
  }

  function LoadedEdges(e: AccountEdges): Loaded {
    Loaded(e.withGroups.Some?, e.withProxy.Some?, e.withParent.Some?, e.withChildren.Some?, e.withAccountGroups.Some?)
  }

  function ColumnsOf(fields: seq<Column>, e: AccountEdges): Option<seq<Column>> {
    AccountColumns(fields, e.withProxy.Some?, e.withParent.Some?)
  }

  function LinkColumnsOf(fields: seq<AccountGroupColumn>, e: AccountGroupEdges): Option<seq<AccountGroupColumn>> {
    AccountGroupColumns(fields, e.withAccount.Some?, e.withGroup.Some?)
  }

  // ---- Batch ----

  ghost function Batch(db: Database, e: AccountEdges, fields: seq<Column>, rows: seq<AccountRow>)
    : (ts: seq<AccountTree>)
    ensures |ts| == |rows|
    decreases e, 1
  {
    seq(|rows|, i requires 0 <= i < |rows| =>
      AccountTree(ProjectAccount(rows[i], ColumnsOf(fields, e)), LoadedEdges(e),
                  GroupsEdge(db, e.withGroups, AccountIDs(rows))[i],
                  ProxyEdge(db, e.withProxy, ProxyKeys(rows))[i],
                  AccountEdge(db, e.withParent, ParentKeys(rows))[i],
                  ChildrenEdge(db, e.withChildren, AccountIDs(rows))[i],
                  AccountGroupsEdge(db, e.withAccountGroups, AccountIDs(rows))[i]))
  }

  ghost function GroupsEdge(db: Database, edge: Option<GroupQ>, ids: seq<int>): (r: seq<seq<GroupRow>>)
    ensures |r| == |ids|
  {
    match edge case None => seq(|ids|, _ => []) case Some(q) => GroupsFor(db, q, ids)
  }

  ghost function ProxyEdge(db: Database, edge: Option<ProxyQ>, keys: seq<Option<int>>): (r: seq<Option<ProxyRow>>)
    ensures |r| == |keys|
  {
    match edge case None => seq(|keys|, _ => None) case Some(q) => ProxiesFor(db, q, keys)
  }

  ghost function AccountEdge(db: Database, edge: Option<AccountQ>,
                             keys: seq<Option<int>>): (r: seq<Option<AccountTree>>)
    ensures |r| == |keys|
    decreases edge
  {
    match edge case None => seq(|keys|, _ => None) case Some(q) => AccountsFor(db, q, keys)
  }

  ghost function ChildrenEdge(db: Database, edge: Option<AccountQ>, ids: seq<int>): (r: seq<seq<AccountTree>>)
    ensures |r| == |ids|
    decreases edge
  {
    match edge case None => seq(|ids|, _ => []) case Some(q) => ChildrenFor(db, q, ids)
  }

  ghost function AccountGroupsEdge(db: Database, edge: Option<AccountGroupQ>, ids: seq<int>)
    : (r: seq<seq<AccountGroupTree>>)
    ensures |r| == |ids|
    decreases edge
  {
    match edge case None => seq(|ids|, _ => []) case Some(q) => AccountGroupsFor(db, q, ids)
  }

  ghost function LinkGroupEdge(db: Database, edge: Option<GroupQ>, keys: seq<Option<int>>): (r: seq<Option<GroupRow>>)
    ensures |r| == |keys|
  {
    match edge case None => seq(|keys|, _ => None) case Some(q) => LinkGroupsFor(db, q, keys)
  }

  ghost function GroupsFor(db: Database, q: GroupQ, ids: seq<int>): (r: seq<seq<GroupRow>>)
    ensures |r| == |ids|
  {
    GroupLists(JoinRows(db, q, ids), ids)
  }

  ghost function ProxiesFor(db: Database, q: ProxyQ, keys: seq<Option<int>>): (r: seq<Option<ProxyRow>>)
    ensures |r| == |keys|
  {
    var ids := DistinctKeys(keys);
    var rows := if ids == [] then [] else ProxyRows(db, OfProxies(q, ids));
    seq(|keys|, i requires 0 <= i < |keys| =>
      if keys[i].None? then None else PickLast(ProxyIDKeys(rows), rows, keys[i].value))
  }

  ghost function AccountsFor(db: Database, q: AccountQ, keys: seq<Option<int>>): (r: seq<Option<AccountTree>>)
    ensures |r| == |keys|
    decreases q
  {
    var ids := DistinctKeys(keys);
    var rows := if ids == [] then [] else AccountRows(db, OfIDs(q, ids));
    var forest := Batch(db, q.edges, q.fields, rows);
    seq(|keys|, i requires 0 <= i < |keys| =>
      if keys[i].None? then None else PickLast(IDKeys(rows), forest, keys[i].value))
  }

  ghost function ChildrenFor(db: Database, q: AccountQ, ids: seq<int>): (r: seq<seq<AccountTree>>)
    ensures |r| == |ids|
    decreases q
  {
    var rows := AccountRows(db, OfParents(q, ids));
    var forest := Batch(db, q.edges, OfParents(q, ids).fields, rows);
    seq(|ids|, i requires 0 <= i < |ids| =>
      if LastHolder(ids, i) then Pick(ParentKeys(rows), forest, ids[i]) else [])
  }

  ghost function AccountGroupsFor(db: Database, q: AccountGroupQ, ids: seq<int>): (r: seq<seq<AccountGroupTree>>)
    ensures |r| == |ids|
    decreases q
  {
    var rows := AccountGroupRows(db, OfAccounts(q, ids));
    var forest := LinkBatch(db, q.edges, OfAccounts(q, ids).fields, rows);
    seq(|ids|, i requires 0 <= i < |ids| =>
      if LastHolder(ids, i) then Pick(LinkAccountKeys(rows), forest, ids[i]) else [])
  }

  ghost function LinkBatch(db: Database, e: AccountGroupEdges, fields: seq<AccountGroupColumn>,
                           rows: seq<AccountGroupRow>): (ts: seq<AccountGroupTree>)
    ensures |ts| == |rows|
    decreases e, 1
  {
    seq(|rows|, i requires 0 <= i < |rows| =>
      AccountGroupTree(ProjectAccountGroup(rows[i], LinkColumnsOf(fields, e)),
                       e.withAccount.Some?, e.withGroup.Some?,
                       AccountEdge(db, e.withAccount, LinkAccountKeys(rows))[i],
                       LinkGroupEdge(db, e.withGroup, LinkGroupKeys(rows))[i]))
  }

  ghost function LinkGroupsFor(db: Database, q: GroupQ, keys: seq<Option<int>>): (r: seq<Option<GroupRow>>)
    ensures |r| == |keys|
  {
    var ids := DistinctKeys(keys);
    var rows := if ids == [] then [] else GroupRows(db, OfGroups(q, ids));
    seq(|keys|, i requires 0 <= i < |keys| =>
      if keys[i].None? then None else PickLast(GroupIDKeys(rows), rows, keys[i].value))
  }

  // ---- Naive ----

  /** One row with each edge fetched by its own query for that row alone. */
  ghost function Naive(db: Database, e: AccountEdges, fields: seq<Column>, r: AccountRow): AccountTree
    decreases e, 0
  {
    AccountTree(ProjectAccount(r, ColumnsOf(fields, e)), LoadedEdges(e),
                NaiveGroups(db, e.withGroups, r.id),
                NaiveProxy(db, e.withProxy, r.proxyID),
                NaiveParent(db, e.withParent, r.parentAccountID),
                NaiveChildren(db, e.withChildren, r.id),
                NaiveAccountGroups(db, e.withAccountGroups, r.id))
  }

  ghost function NaiveGroups(db: Database, edge: Option<GroupQ>, id: int): seq<GroupRow> {
    match edge case None => [] case Some(q) => GroupNodes(JoinRows(db, q, [id]))
  }

  ghost function NaiveProxy(db: Database, edge: Option<ProxyQ>, key: Option<int>): Option<ProxyRow> {
    if edge.None? || key.None? then None else LastOf(ProxyRows(db, OfProxies(edge.value, [key.value])))
  }

  ghost function NaiveParent(db: Database, edge: Option<AccountQ>, key: Option<int>): Option<AccountTree>
    decreases edge
  {
    if edge.None? || key.None? then None else NaiveAccount(db, edge.value, key.value)
  }

  ghost function NaiveChildren(db: Database, edge: Option<AccountQ>, id: int): seq<AccountTree>
    decreases edge
  {
    match edge
    case None => []
    case Some(q) => NaiveForest(db, q.edges, OfParents(q, [id]).fields, AccountRows(db, OfParents(q, [id])))
  }

  ghost function NaiveAccountGroups(db: Database, edge: Option<AccountGroupQ>, id: int): seq<AccountGroupTree>
    decreases edge
  {
    match edge
    case None => []
    case Some(q) => LinkNaiveForest(db, q.edges, OfAccounts(q, [id]).fields, AccountGroupRows(db, OfAccounts(q, [id])))
  }

  ghost function NaiveLinkGroup(db: Database, edge: Option<GroupQ>, key: Option<int>): Option<GroupRow> {
    if edge.None? || key.None? then None else LastOf(GroupRows(db, OfGroups(edge.value, [key.value])))
  }

  ghost function NaiveAccount(db: Database, q: AccountQ, id: int): Option<AccountTree>
    decreases q
  {
    LastOf(NaiveForest(db, q.edges, q.fields, AccountRows(db, OfIDs(q, [id]))))
  }

  ghost function NaiveForest(db: Database, e: AccountEdges, fields: seq<Column>, rows: seq<AccountRow>)
    : (ts: seq<AccountTree>)
    ensures |ts| == |rows|
    decreases e, 1
  {
    seq(|rows|, i requires 0 <= i < |rows| => Naive(db, e, fields, rows[i]))
  }

  ghost function LinkNaive(db: Database, e: AccountGroupEdges, fields: seq<AccountGroupColumn>, r: AccountGroupRow)
    : AccountGroupTree
    decreases e, 0
  {
    AccountGroupTree(ProjectAccountGroup(r, LinkColumnsOf(fields, e)), e.withAccount.Some?, e.withGroup.Some?,
                     NaiveParent(db, e.withAccount, Some(r.accountID)),
                     NaiveLinkGroup(db, e.withGroup, Some(r.groupID)))
  }

  ghost function LinkNaiveForest(db: Database, e: AccountGroupEdges, fields: seq<AccountGroupColumn>,
                                 rows: seq<AccountGroupRow>): (ts: seq<AccountGroupTree>)
    ensures |ts| == |rows|
    decreases e, 1
  {
    seq(|rows|, i requires 0 <= i < |rows| => LinkNaive(db, e, fields, rows[i]))
  }

  // ---- What a run leaves in the query tree ----

  ghost function NarrowEdges(db: Database, e: AccountEdges, rows: seq<AccountRow>): AccountEdges
    decreases e
  {
    if rows == [] then e
    else
      AccountEdges(
        NarrowedGroups(e.withGroups, AccountIDs(rows)),
        NarrowedProxy(e.withProxy, ProxyKeys(rows)),
        NarrowedAccount(db, e.withParent, ParentKeys(rows)),
        NarrowedChildren(db, e.withChildren, AccountIDs(rows)),
        NarrowedLinks(db, e.withAccountGroups, AccountIDs(rows)))
  }

  ghost function NarrowedGroups(edge: Option<GroupQ>, ids: seq<int>): Option<GroupQ> {
    match edge case None => None case Some(q) => Some(q.(joined := Some(ids)))
  }

  ghost function NarrowedProxy(edge: Option<ProxyQ>, keys: seq<Option<int>>): Option<ProxyQ> {
    match edge case None => None case Some(q) => Some(NarrowProxy(q, keys))
  }

  ghost function NarrowedAccount(db: Database, edge: Option<AccountQ>, keys: seq<Option<int>>): Option<AccountQ>
    decreases edge
  {
    match edge case None => None case Some(q) => Some(NarrowAccount(db, q, keys))
  }

  ghost function NarrowedChildren(db: Database, edge: Option<AccountQ>, ids: seq<int>): Option<AccountQ>
    decreases edge
  {
    match edge case None => None case Some(q) => Some(NarrowChildren(db, q, ids))
  }

  ghost function NarrowedLinks(db: Database, edge: Option<AccountGroupQ>, ids: seq<int>): Option<AccountGroupQ>
    decreases edge
  {
    match edge case None => None case Some(q) => Some(NarrowLinks(db, q, ids))
  }

  ghost function NarrowedLinkGroup(edge: Option<GroupQ>, keys: seq<Option<int>>): Option<GroupQ> {
    match edge case None => None case Some(q) => Some(NarrowGroup(q, keys))
  }

  ghost function NarrowProxy(q: ProxyQ, keys: seq<Option<int>>): ProxyQ {
    var ids := DistinctKeys(keys);
    if ids == [] then q else OfProxies(q, ids)
  }

  ghost function NarrowAccount(db: Database, q: AccountQ, keys: seq<Option<int>>): AccountQ
    decreases q
  {
    var ids := DistinctKeys(keys);
    if ids == [] then q
    else
      var edges := NarrowEdges(db, q.edges, AccountRows(db, OfIDs(q, ids)));
      OfIDs(q, ids).(edges := edges)
  }

  ghost function NarrowChildren(db: Database, q: AccountQ, ids: seq<int>): AccountQ
    decreases q
  {
    var edges := NarrowEdges(db, q.edges, AccountRows(db, OfParents(q, ids)));
    OfParents(q, ids).(edges := edges)
  }

  ghost function NarrowLinks(db: Database, q: AccountGroupQ, ids: seq<int>): AccountGroupQ
    decreases q
  {
    var edges := NarrowLinkEdges(db, q.edges, AccountGroupRows(db, OfAccounts(q, ids)));
    OfAccounts(q, ids).(edges := edges)
  }

  ghost function NarrowLinkEdges(db: Database, e: AccountGroupEdges, rows: seq<AccountGroupRow>): AccountGroupEdges
    decreases e, 1
  {
    if rows == [] then e
    else
      AccountGroupEdges(
        NarrowedAccount(db, e.withAccount, LinkAccountKeys(rows)),
        NarrowedLinkGroup(e.withGroup, LinkGroupKeys(rows)))
  }

  ghost function NarrowGroup(q: GroupQ, keys: seq<Option<int>>): GroupQ {
    var ids := DistinctKeys(keys);
    if ids == [] then q else OfGroups(q, ids)
  }

  // ---- Conditions on query trees ----

  /** No query below the root has a limit or an offset. */
  ghost predicate Unwindowed(e: AccountEdges)
    decreases e
  {
    && (e.withGroups.Some? ==> e.withGroups.value.limit.None? && e.withGroups.value.offset.None?)
    && (e.withProxy.Some? ==> e.withProxy.value.limit.None? && e.withProxy.value.offset.None?)
    && (e.withParent.Some? ==> UnwindowedQuery(e.withParent.value))
    && (e.withChildren.Some? ==> UnwindowedQuery(e.withChildren.value))
    && (e.withAccountGroups.Some? ==>
          && e.withAccountGroups.value.limit.None? && e.withAccountGroups.value.offset.None?
          && UnwindowedLinks(e.withAccountGroups.value.edges))
  }

  ghost predicate UnwindowedQuery(q: AccountQ)
    decreases q
  {
    q.limit.None? && q.offset.None? && Unwindowed(q.edges)
  }

  ghost predicate UnwindowedLinks(e: AccountGroupEdges)
    decreases e
  {
    && (e.withAccount.Some? ==> UnwindowedQuery(e.withAccount.value))
    && (e.withGroup.Some? ==> e.withGroup.value.limit.None? && e.withGroup.value.offset.None?)
  }

  /** No group query of the tree has been joined yet. */
  ghost predicate Unjoined(e: AccountEdges)
    decreases e
  {
    && (e.withGroups.Some? ==> e.withGroups.value.joined.None?)
    && (e.withParent.Some? ==> Unjoined(e.withParent.value.edges))
    && (e.withChildren.Some? ==> Unjoined(e.withChildren.value.edges))
    && (e.withAccountGroups.Some? ==> UnjoinedLinks(e.withAccountGroups.value.edges))
  }

  ghost predicate UnjoinedLinks(e: AccountGroupEdges)
    decreases e
  {
    && (e.withAccount.Some? ==> Unjoined(e.withAccount.value.edges))
    && (e.withGroup.Some? ==> e.withGroup.value.joined.None?)
  }
}
