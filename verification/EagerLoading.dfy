/** The query builders and their eager-loading methods. */
module EagerLoading {
  import opened Collections
  import opened Schema
  import opened QueryModel
  import opened Graph
  import opened Stitching
  import opened Denotation
  import opened JoinTheorem
  import opened ResultNodes

  class ProxyQuery {
    var predicates: seq<ProxyPredicate>
    var order: ProxyRow -> int
    var limit: Option<nat>
    var offset: Option<nat>

    constructor (m: ProxyQ)
      ensures Model() == m
    {
      predicates, order, limit, offset := m.predicates, m.order, m.limit, m.offset;
    }

    ghost function Model(): ProxyQ
      reads this
    {
      ProxyQ(predicates, order, limit, offset)
    }

    method Where(p: ProxyPredicate)
      modifies this
      ensures Model() == old(Model()).(predicates := old(Model()).predicates + [p])
    {
      predicates := predicates + [p];
    }

    method All(db: Database) returns (nodes: seq<Proxy>)
      ensures var rows := ProxyRows(db, Model());
        |nodes| == |rows| && forall i :: 0 <= i < |rows| ==> nodes[i].row == rows[i]
    {
      var rows := Select(db.proxies, KeepsProxy(predicates), order, limit, offset);
      nodes := [];
      for i := 0 to |rows|
        invariant |nodes| == i && forall j :: 0 <= j < i ==> nodes[j].row == rows[j]
      {
        var node := new Proxy(rows[i]);
        nodes := nodes + [node];
      }
    }
  }

  class GroupQuery {
    var predicates: seq<GroupPredicate>
    var joined: Option<seq<int>>
    var order: GroupRow -> int
    var limit: Option<nat>
    var offset: Option<nat>

    constructor (m: GroupQ)
      ensures Model() == m
    {
      predicates, joined, order, limit, offset := m.predicates, m.joined, m.order, m.limit, m.offset;
    }

    ghost function Model(): GroupQ
      reads this
    {
      GroupQ(predicates, joined, order, limit, offset)
    }

    method Where(p: GroupPredicate)
      modifies this
      ensures Model() == old(Model()).(predicates := old(Model()).predicates + [p])
    {
      predicates := predicates + [p];
    }

    method All(db: Database) returns (nodes: seq<Group>)
      ensures GroupsDenote(nodes, GroupRows(db, Model()))
    {
      var rows := Select(db.groups, KeepsGroup(predicates), order, limit, offset);
      nodes := [];
      for i := 0 to |rows|
        invariant |nodes| == i && forall j :: 0 <= j < i ==> nodes[j].row == rows[j]
      {
        var node := new Group(rows[i]);
        nodes := nodes + [node];
      }
    }

    /** Rewrite the selector: join the link table, restricted to the given accounts. */
    method Join(ids: seq<int>)
      requires joined.None?
      modifies this
      ensures Model() == old(Model()).(joined := Some(ids))
    {
      joined := Some(ids);
    }

    /** Rewrite the selector for the given accounts and read its rows. */
    method JoinedRows(db: Database, ids: seq<int>) returns (stream: seq<JoinRow>)
      requires joined.None?
      modifies this
      ensures Model() == old(Model()).(joined := Some(ids))
      ensures stream == JoinRows(db, old(Model()), ids)
    {
      Join(ids);
      stream := Window(JoinStream(SortBy(Filter(db.groups, KeepsGroup(predicates)), order), db.accountGroups, ids),
                       limit, offset);
    }
  }

  class AccountQuery {
    var fields: seq<Column>
    var predicates: seq<AccountPredicate>
    var order: AccountRow -> int
    var limit: Option<nat>
    var offset: Option<nat>
    var withGroups: GroupQuery?
    var withProxy: ProxyQuery?
    var withParent: AccountQuery?
    var withChildren: AccountQuery?
    var withAccountGroups: AccountGroupQuery?
    ghost var Repr: set<object>

    /** The query tree below this query: no query object occurs in it twice. */
    ghost predicate Valid()
      reads this, Repr
      decreases Repr
      ensures Valid() ==> this in Repr
    {
      && this in Repr
      && (withGroups != null ==> withGroups in Repr)
      && (withProxy != null ==> withProxy in Repr)
      && (withParent != null ==>
            && withParent in Repr && withParent.Repr <= Repr && this !in withParent.Repr && withParent.Valid()
            && withGroups !in withParent.Repr && withProxy !in withParent.Repr)
      && (withChildren != null ==>
            && withChildren in Repr && withChildren.Repr <= Repr && this !in withChildren.Repr && withChildren.Valid()
            && withGroups !in withChildren.Repr && withProxy !in withChildren.Repr)
      && (withAccountGroups != null ==>
            && withAccountGroups in Repr && withAccountGroups.Repr <= Repr && this !in withAccountGroups.Repr
            && withAccountGroups.Valid()
            && withGroups !in withAccountGroups.Repr && withProxy !in withAccountGroups.Repr)
      && (withParent != null && withChildren != null ==> withParent.Repr !! withChildren.Repr)
      && (withParent != null && withAccountGroups != null ==> withParent.Repr !! withAccountGroups.Repr)
      && (withChildren != null && withAccountGroups != null ==> withChildren.Repr !! withAccountGroups.Repr)
    }

    ghost function Model(): AccountQ
      requires Valid()
      reads this, Repr
      decreases Repr, 1
    {
      AccountQ(fields, predicates, order, limit, offset, Edges())
    }

    ghost function Edges(): AccountEdges
      requires Valid()
      reads this, Repr
      decreases Repr, 0, 0
    {
      AccountEdges(
        if withGroups == null then None else Some(withGroups.Model()),
        if withProxy == null then None else Some(withProxy.Model()),
        if withParent == null then None else Some(withParent.Model()),
        if withChildren == null then None else Some(withChildren.Model()),
        if withAccountGroups == null then None else Some(withAccountGroups.Model()))
    }

    method Where(p: AccountPredicate)
      requires Valid()
      modifies this`predicates
      ensures Valid() && Model() == old(Model()).(predicates := old(Model()).predicates + [p])
    {
      predicates := predicates + [p];
    }

    /** Add a foreign key to a field selection. */
    method AppendField(c: Column)
      requires Valid()
      modifies this`fields
      ensures Valid() && Model() == old(Model()).(fields := AppendFieldOnce(old(fields), c))
    {
      if |fields| > 0 {
        fields := AppendFieldOnce(fields, c);
      }
    }

    /** The columns of the query specification. */
    method SpecColumns() returns (cols: Option<seq<Column>>)
      requires Valid()
      ensures cols == ColumnsOf(fields, Edges())
    {
      if |fields| == 0 {
        return None;
      }
      var columns := SelectedColumns(fields);
      if withProxy != null {
        columns := AppendOnce(columns, ProxyID);
      }
      if withParent != null {
        columns := AppendOnce(columns, ParentAccountID);
      }
      cols := Some(columns);
    }

    /** Run the query and decode its rows into nodes without edges. */
    method QueryNodes(db: Database) returns (nodes: seq<Account>)
      requires Valid()
      ensures AccountsDecoded(nodes, AccountRows(db, Model()), fields, Edges())
      ensures Listed(db, Model(), nodes)
      ensures Distinct(nodes) && forall n :: n in nodes ==> fresh(n)
      ensures forall n :: n in nodes ==>
        n.groups == [] && n.proxy == null && n.parent == null && n.children == [] && n.accountGroups == []
    {
      var rows := Select(db.accounts, Keeps(predicates), order, limit, offset);
      var loadedTypes := Loaded(withGroups != null, withProxy != null, withParent != null, withChildren != null,
                                withAccountGroups != null);
      var cols := SpecColumns();
      nodes := Decode(rows, cols, loadedTypes);
      ModelParts();
      DecodedListed(db, Model(), nodes) by {
        hide ColumnsOf, Select, Keeps, ProjectAccount;
      }
    }

    /**
     * Eager loading: the root rows, then one batched query per requested edge, stitched in memory.
     * The returned nodes denote the batch trees, and the loaders have narrowed the sub-queries in place.
     */
    method SqlAll(db: Database) returns (ok: bool, nodes: seq<Account>, ghost S: set<object>)
      requires Valid() && Unjoined(Edges())
      modifies Repr
      ensures Valid() && Repr == old(Repr)
      ensures Model() == old(Model()).(edges := NarrowEdges(db, old(Edges()), AccountRows(db, old(Model()))))
      ensures ok && fresh(S)
      ensures AllDenote(S, nodes, Batch(db, old(Edges()), old(fields), AccountRows(db, old(Model()))))
      ensures Listed(db, old(Model()), nodes)
      decreases Repr, 1
    {
      hide *;
      ghost var e, rows := Edges(), AccountRows(db, Model());
      ModelParts();
      nodes := QueryNodes(db);
      DecodedParts(db, nodes, rows, fields, e);
      ok, S := true, {};
      if |nodes| == 0 {
        return;
      }
      ghost var parents, children, links;
      ok, parents, children, links := LoadEdges(db, nodes, rows);
      ModelParts();
      S := (set n | n in nodes) + parents + children + links;
      Assemble(S, parents, children, links, db, e, fields, rows, nodes);
    }

    lemma {:induction false} ModelParts()
      requires Valid()
      ensures Model() == AccountQ(fields, predicates, order, limit, offset, Edges())
    {
    }

    /** The loaders, edge after edge. */
    method LoadEdges(db: Database, nodes: seq<Account>, ghost rows: seq<AccountRow>)
      returns (ok: bool, ghost parents: set<object>, ghost children: set<object>, ghost links: set<object>)
      requires Valid()
      requires Edges().withGroups.Some? ==> Edges().withGroups.value.joined.None?
      requires Edges().withParent.Some? ==> Unjoined(Edges().withParent.value.edges)
      requires Edges().withChildren.Some? ==> Unjoined(Edges().withChildren.value.edges)
      requires Edges().withAccountGroups.Some? ==> UnjoinedLinks(Edges().withAccountGroups.value.edges)
      requires Distinct(nodes) && forall n :: n in nodes ==> n !in Repr
      requires forall n :: n in nodes ==>
        n.groups == [] && n.proxy == null && n.parent == null && n.children == [] && n.accountGroups == []
      requires |nodes| == |rows| && IDsOf(nodes) == AccountIDs(rows)
      requires Edges().withProxy.Some? ==> ProxyKeysOf(nodes) == ProxyKeys(rows)
      requires Edges().withParent.Some? ==> ParentKeysOf(nodes) == ParentKeys(rows)
      modifies Repr, set n | n in nodes
      ensures Valid() && Repr == old(Repr) && unchanged(this)
      ensures Edges() == old(Edges()).(
        withGroups := NarrowedGroups(old(Edges()).withGroups, AccountIDs(rows)),
        withProxy := NarrowedProxy(old(Edges()).withProxy, ProxyKeys(rows)),
        withParent := NarrowedAccount(db, old(Edges()).withParent, ParentKeys(rows)),
        withChildren := NarrowedChildren(db, old(Edges()).withChildren, AccountIDs(rows)),
        withAccountGroups := NarrowedLinks(db, old(Edges()).withAccountGroups, AccountIDs(rows)))
      ensures ok && fresh(parents) && fresh(children) && fresh(links)
      ensures GroupListsDenote(HeldGroups(nodes), GroupsEdge(db, old(Edges()).withGroups, AccountIDs(rows)))
      ensures ProxiesDenote(HeldProxies(nodes), ProxyEdge(db, old(Edges()).withProxy, ProxyKeys(rows)))
      ensures AccountsDenote(parents, HeldParents(nodes), AccountEdge(db, old(Edges()).withParent, ParentKeys(rows)))
      ensures ForestsDenote(children, HeldChildren(nodes),
                            ChildrenEdge(db, old(Edges()).withChildren, AccountIDs(rows)))
      ensures LinkForestsDenote(links, HeldAccountGroups(nodes),
                                AccountGroupsEdge(db, old(Edges()).withAccountGroups, AccountIDs(rows)))
      decreases Repr, 0, 2
    {
      hide *;
      parents, children, links := {}, {}, {};
      ok := LoadFlatEdges(db, nodes, rows);
      if ok {
        ok, parents, children := LoadAccountEdges(db, nodes, rows);
      }
      if ok {
        ok, links := LoadAccountGroupsEdge(db, nodes, rows);
      }
    }

    method LoadFlatEdges(db: Database, nodes: seq<Account>, ghost rows: seq<AccountRow>) returns (ok: bool)
      requires Valid() && (Edges().withGroups.Some? ==> Edges().withGroups.value.joined.None?)
      requires Distinct(nodes) && forall n :: n in nodes ==> n !in Repr && n.groups == [] && n.proxy == null
      requires |nodes| == |rows| && IDsOf(nodes) == AccountIDs(rows)
      requires Edges().withProxy.Some? ==> ProxyKeysOf(nodes) == ProxyKeys(rows)
      modifies Repr, (set n | n in nodes)`groups, (set n | n in nodes)`proxy
      ensures Valid() && Repr == old(Repr) && unchanged(this)
      ensures Edges() == old(Edges()).(withGroups := NarrowedGroups(old(Edges()).withGroups, AccountIDs(rows)),
                                       withProxy := NarrowedProxy(old(Edges()).withProxy, ProxyKeys(rows)))
      ensures ok
      ensures GroupListsDenote(HeldGroups(nodes), GroupsEdge(db, old(Edges()).withGroups, AccountIDs(rows)))
      ensures ProxiesDenote(HeldProxies(nodes), ProxyEdge(db, old(Edges()).withProxy, ProxyKeys(rows)))
    {
      hide *;
      ok := LoadGroupsEdge(db, nodes, rows);
      if ok {
        ok := LoadProxyEdge(db, nodes, rows);
      }
    }

    method LoadAccountEdges(db: Database, nodes: seq<Account>, ghost rows: seq<AccountRow>)
      returns (ok: bool, ghost parents: set<object>, ghost children: set<object>)
      requires Valid()
      requires Edges().withParent.Some? ==> Unjoined(Edges().withParent.value.edges)
      requires Edges().withChildren.Some? ==> Unjoined(Edges().withChildren.value.edges)
      requires Distinct(nodes) && forall n :: n in nodes ==> n !in Repr && n.parent == null && n.children == []
      requires |nodes| == |rows| && IDsOf(nodes) == AccountIDs(rows)
      requires Edges().withParent.Some? ==> ParentKeysOf(nodes) == ParentKeys(rows)
      modifies Repr, (set n | n in nodes)`parent, (set n | n in nodes)`children
      ensures Valid() && Repr == old(Repr) && unchanged(this)
      ensures Edges() == old(Edges()).(withParent := NarrowedAccount(db, old(Edges()).withParent, ParentKeys(rows)),
                                       withChildren := NarrowedChildren(db, old(Edges()).withChildren,
                                                                        AccountIDs(rows)))
      ensures ok && fresh(parents) && fresh(children)
      ensures AccountsDenote(parents, HeldParents(nodes), AccountEdge(db, old(Edges()).withParent, ParentKeys(rows)))
      ensures ForestsDenote(children, HeldChildren(nodes),
                            ChildrenEdge(db, old(Edges()).withChildren, AccountIDs(rows)))
      decreases Repr, 0, 1
    {
      hide *;
      children := {};
      ok, parents := LoadParentEdge(db, nodes, rows);
      if ok {
        ok, children := LoadChildrenEdge(db, nodes, rows);
      }
    }

    method LoadGroupsEdge(db: Database, nodes: seq<Account>, ghost rows: seq<AccountRow>) returns (ok: bool)
      requires Valid() && (Edges().withGroups.Some? ==> Edges().withGroups.value.joined.None?)
      requires Distinct(nodes) && forall n :: n in nodes ==> n !in Repr && n.groups == []
      requires |nodes| == |rows| && IDsOf(nodes) == AccountIDs(rows)
      modifies Repr, (set n | n in nodes)`groups
      ensures Valid() && Repr == old(Repr) && unchanged(this)
      ensures Edges() == old(Edges()).(withGroups := NarrowedGroups(old(Edges()).withGroups, AccountIDs(rows)))
      ensures ok
      ensures GroupListsDenote(HeldGroups(nodes), GroupsEdge(db, old(Edges()).withGroups, AccountIDs(rows)))
    {
      hide GroupsFor, Distinct, Unjoined;
      ok := true;
      if withGroups != null {
        ok := LoadGroups(db, withGroups, nodes);
      }
    }

    method LoadProxyEdge(db: Database, nodes: seq<Account>, ghost rows: seq<AccountRow>) returns (ok: bool)
      requires Valid()
      requires Distinct(nodes) && forall n :: n in nodes ==> n !in Repr && n.proxy == null
      requires |nodes| == |rows| && (Edges().withProxy.Some? ==> ProxyKeysOf(nodes) == ProxyKeys(rows))
      modifies Repr, (set n | n in nodes)`proxy
      ensures Valid() && Repr == old(Repr) && unchanged(this)
      ensures Edges() == old(Edges()).(withProxy := NarrowedProxy(old(Edges()).withProxy, ProxyKeys(rows)))
      ensures ok
      ensures ProxiesDenote(HeldProxies(nodes), ProxyEdge(db, old(Edges()).withProxy, ProxyKeys(rows)))
    {
      hide ProxiesFor, NarrowProxy, Distinct;
      ok := true;
      if withProxy != null {
        ok := LoadProxy(db, withProxy, nodes);
      }
    }

    method LoadParentEdge(db: Database, nodes: seq<Account>, ghost rows: seq<AccountRow>)
      returns (ok: bool, ghost S: set<object>)
      requires Valid() && (Edges().withParent.Some? ==> Unjoined(Edges().withParent.value.edges))
      requires Distinct(nodes) && forall n :: n in nodes ==> n !in Repr && n.parent == null
      requires |nodes| == |rows| && (Edges().withParent.Some? ==> ParentKeysOf(nodes) == ParentKeys(rows))
      modifies Repr, (set n | n in nodes)`parent
      ensures Valid() && Repr == old(Repr) && unchanged(this)
      ensures Edges() == old(Edges()).(withParent := NarrowedAccount(db, old(Edges()).withParent, ParentKeys(rows)))
      ensures ok && fresh(S)
      ensures AccountsDenote(S, HeldParents(nodes), AccountEdge(db, old(Edges()).withParent, ParentKeys(rows)))
      decreases Repr, 0, 0
    {
      hide Denotes, AccountsFor, NarrowAccount, Distinct, Unjoined;
      ok, S := true, {};
      if withParent != null {
        ok, S := LoadParent(db, withParent, nodes);
      }
    }

    method LoadChildrenEdge(db: Database, nodes: seq<Account>, ghost rows: seq<AccountRow>)
      returns (ok: bool, ghost S: set<object>)
      requires Valid() && (Edges().withChildren.Some? ==> Unjoined(Edges().withChildren.value.edges))
      requires Distinct(nodes) && forall n :: n in nodes ==> n !in Repr && n.children == []
      requires |nodes| == |rows| && IDsOf(nodes) == AccountIDs(rows)
      modifies Repr, (set n | n in nodes)`children
      ensures Valid() && Repr == old(Repr) && unchanged(this)
      ensures Edges() == old(Edges()).(withChildren := NarrowedChildren(db, old(Edges()).withChildren,
                                                                        AccountIDs(rows)))
      ensures ok && fresh(S)
      ensures ForestsDenote(S, HeldChildren(nodes), ChildrenEdge(db, old(Edges()).withChildren, AccountIDs(rows)))
      decreases Repr, 0, 0
    {
      hide Denotes, ChildrenFor, NarrowChildren, Distinct, Unjoined;
      ok, S := true, {};
      if withChildren != null {
        ok, S := LoadChildren(db, withChildren, nodes);
      }
    }

    method LoadAccountGroupsEdge(db: Database, nodes: seq<Account>, ghost rows: seq<AccountRow>)
      returns (ok: bool, ghost S: set<object>)
      requires Valid() && (Edges().withAccountGroups.Some? ==> UnjoinedLinks(Edges().withAccountGroups.value.edges))
      requires Distinct(nodes) && forall n :: n in nodes ==> n !in Repr && n.accountGroups == []
      requires |nodes| == |rows| && IDsOf(nodes) == AccountIDs(rows)
      modifies Repr, (set n | n in nodes)`accountGroups
      ensures Valid() && Repr == old(Repr) && unchanged(this)
      ensures Edges() == old(Edges()).(withAccountGroups := NarrowedLinks(db, old(Edges()).withAccountGroups,
                                                                          AccountIDs(rows)))
      ensures ok && fresh(S)
      ensures LinkForestsDenote(S, HeldAccountGroups(nodes),
                                AccountGroupsEdge(db, old(Edges()).withAccountGroups, AccountIDs(rows)))
      decreases Repr, 0, 0
    {
      hide LinkDenotes, AccountGroupsFor, NarrowLinks, Distinct, UnjoinedLinks;
      ok, S := true, {};
      if withAccountGroups != null {
        ok, S := LoadAccountGroups(db, withAccountGroups, nodes);
      }
    }
  }

  /** The identifier, then the selected fields other than the identifier. */
  method SelectedColumns(fields: seq<Column>) returns (columns: seq<Column>)
    ensures columns == [ID] + Filter(fields, NotID)
  {
    hide Filter;
    columns := [ID];
    FilterEmpty(fields[..0], NotID);
    for i := 0 to |fields|
      invariant columns == [ID] + Filter(fields[..i], NotID)
    {
      FilterAppend(fields[..i], fields[i], NotID);
      assert fields[..i + 1] == fields[..i] + [fields[i]];
      if fields[i] != ID {
        columns := columns + [fields[i]];
      }
    }
    assert fields[..|fields|] == fields;
  }

  /** One decoded node per row, in order. */
  method Decode(rows: seq<AccountRow>, cols: Option<seq<Column>>, loaded: Loaded) returns (nodes: seq<Account>)
    ensures |nodes| == |rows|
    ensures forall i :: 0 <= i < |rows| ==> nodes[i].row == ProjectAccount(rows[i], cols) && nodes[i].loaded == loaded
    ensures Distinct(nodes) && forall n :: n in nodes ==> fresh(n)
    ensures forall n :: n in nodes ==>
      n.groups == [] && n.proxy == null && n.parent == null && n.children == [] && n.accountGroups == []
  {
    hide ProjectAccount;
    nodes := [];
    for i := 0 to |rows|
      invariant |nodes| == i && Distinct(nodes)
      invariant forall n :: n in nodes ==> fresh(n)
      invariant forall n :: n in nodes ==>
        n.groups == [] && n.proxy == null && n.parent == null && n.children == [] && n.accountGroups == []
      invariant forall j :: 0 <= j < i ==> nodes[j].row == ProjectAccount(rows[j], cols) && nodes[j].loaded == loaded
    {
      var node := new Account(ProjectAccount(rows[i], cols), loaded);
      nodes := nodes + [node];
    }
  }

  ghost predicate AccountsDecoded(nodes: seq<Account>, rows: seq<AccountRow>, fields: seq<Column>, e: AccountEdges) {
    && |nodes| == |rows|
    && forall i :: 0 <= i < |nodes| ==>
         nodes[i].row == ProjectAccount(rows[i], ColumnsOf(fields, e)) && nodes[i].loaded == LoadedEdges(e)
  }

  /**
   * What decoding hands to the loaders. Identifiers are always read, and so are the foreign keys of
   * the requested edges, whatever fields were selected.
   */
  lemma {:induction false} DecodedParts(db: Database, nodes: seq<Account>, rows: seq<AccountRow>, fields: seq<Column>,
                                        e: AccountEdges)
    requires AccountsDecoded(nodes, rows, fields, e) && Unjoined(e)
    ensures |nodes| == |rows| && IDsOf(nodes) == AccountIDs(rows)
    ensures e.withProxy.Some? ==> ProxyKeysOf(nodes) == ProxyKeys(rows)
    ensures e.withParent.Some? ==> ParentKeysOf(nodes) == ParentKeys(rows)
    ensures e.withGroups.Some? ==> e.withGroups.value.joined.None?
    ensures e.withParent.Some? ==> Unjoined(e.withParent.value.edges)
    ensures e.withChildren.Some? ==> Unjoined(e.withChildren.value.edges)
    ensures e.withAccountGroups.Some? ==> UnjoinedLinks(e.withAccountGroups.value.edges)
    ensures rows == [] ==> NarrowEdges(db, e, rows) == e && AllDenote({}, nodes, Batch(db, e, fields, rows))
    ensures rows != [] ==> NarrowEdges(db, e, rows) == AccountEdges(
      NarrowedGroups(e.withGroups, AccountIDs(rows)), NarrowedProxy(e.withProxy, ProxyKeys(rows)),
      NarrowedAccount(db, e.withParent, ParentKeys(rows)), NarrowedChildren(db, e.withChildren, AccountIDs(rows)),
      NarrowedLinks(db, e.withAccountGroups, AccountIDs(rows)))
  {
  }

  lemma {:induction false} Assemble(S: set<object>, parents: set<object>, children: set<object>, links: set<object>,
                                    db: Database,
                 e: AccountEdges, fields: seq<Column>, rows: seq<AccountRow>, nodes: seq<Account>)
    requires AccountsDecoded(nodes, rows, fields, e)
    requires parents <= S && children <= S && links <= S && forall n :: n in nodes ==> n in S
    requires GroupListsDenote(HeldGroups(nodes), GroupsEdge(db, e.withGroups, AccountIDs(rows)))
    requires ProxiesDenote(HeldProxies(nodes), ProxyEdge(db, e.withProxy, ProxyKeys(rows)))
    requires AccountsDenote(parents, HeldParents(nodes), AccountEdge(db, e.withParent, ParentKeys(rows)))
    requires ForestsDenote(children, HeldChildren(nodes), ChildrenEdge(db, e.withChildren, AccountIDs(rows)))
    requires LinkForestsDenote(links, HeldAccountGroups(nodes),
                               AccountGroupsEdge(db, e.withAccountGroups, AccountIDs(rows)))
    ensures AllDenote(S, nodes, Batch(db, e, fields, rows))
  {
    forall i | 0 <= i < |nodes| ensures Denotes(S, nodes[i], Batch(db, e, fields, rows)[i]) {
      AssembleOne(S, parents, children, links, nodes[i], Batch(db, e, fields, rows)[i]) by {
        assert HeldGroups(nodes)[i] == nodes[i].groups && HeldProxies(nodes)[i] == nodes[i].proxy;
        assert HeldParents(nodes)[i] == nodes[i].parent && HeldChildren(nodes)[i] == nodes[i].children;
        assert HeldAccountGroups(nodes)[i] == nodes[i].accountGroups;
      }
    }
  }

  lemma {:induction false} AssembleOne(S: set<object>, parents: set<object>, children: set<object>, links: set<object>,
                                       n: Account, t: AccountTree)
    requires n in S && parents <= S && children <= S && links <= S
    requires n.row == t.row && n.loaded == t.loaded
    requires GroupsDenote(n.groups, t.groups) && ProxyDenotes(n.proxy, t.proxy)
    requires AccountDenotes(parents, n.parent, t.parent)
    requires AllDenote(children, n.children, t.children)
    requires AllLinksDenote(links, n.accountGroups, t.accountGroups)
    ensures Denotes(S, n, t)
  {
    if n.parent != null {
      DenotesInLarger(parents, S, n.parent, t.parent.value);
    }
    forall i | 0 <= i < |t.children| ensures Denotes(S, n.children[i], t.children[i]) {
      DenotesInLarger(children, S, n.children[i], t.children[i]);
    }
    forall i | 0 <= i < |t.accountGroups| ensures LinkDenotes(S, n.accountGroups[i], t.accountGroups[i]) {
      LinkDenotesInLarger(links, S, n.accountGroups[i], t.accountGroups[i]);
    }
  }

  class AccountGroupQuery {
    var fields: seq<AccountGroupColumn>
    var predicates: seq<AccountGroupPredicate>
    var order: AccountGroupRow -> int
    var limit: Option<nat>
    var offset: Option<nat>
    var withAccount: AccountQuery?
    var withGroup: GroupQuery?
    ghost var Repr: set<object>

    ghost predicate Valid()
      reads this, Repr
      decreases Repr
      ensures Valid() ==> this in Repr
    {
      && this in Repr
      && (withGroup != null ==> withGroup in Repr)
      && (withAccount != null ==>
            && withAccount in Repr && withAccount.Repr <= Repr && this !in withAccount.Repr && withAccount.Valid()
            && withGroup !in withAccount.Repr)
    }

    ghost function Model(): AccountGroupQ
      requires Valid()
      reads this, Repr
      decreases Repr, 1
    {
      AccountGroupQ(fields, predicates, order, limit, offset, Edges())
    }

    ghost function Edges(): AccountGroupEdges
      requires Valid()
      reads this, Repr
      decreases Repr, 0, 0
    {
      AccountGroupEdges(
        if withAccount == null then None else Some(withAccount.Model()),
        if withGroup == null then None else Some(withGroup.Model()))
    }

    method Where(p: AccountGroupPredicate)
      requires Valid()
      modifies this`predicates
      ensures Valid() && Model() == old(Model()).(predicates := old(Model()).predicates + [p])
    {
      predicates := predicates + [p];
    }

    method AppendField(c: AccountGroupColumn)
      requires Valid()
      modifies this`fields
      ensures Valid() && Model() == old(Model()).(fields := AppendFieldOnce(old(fields), c))
    {
      if |fields| > 0 {
        fields := AppendFieldOnce(fields, c);
      }
    }

    method QueryNodes(db: Database) returns (nodes: seq<AccountGroup>)
      requires Valid()
      ensures var rows := AccountGroupRows(db, Model());
        LinksDecoded(nodes, rows, fields, Edges())
      ensures Distinct(nodes) && forall n :: n in nodes ==> fresh(n) && n.account == null && n.group == null
    {
      var rows := Select(db.accountGroups, KeepsLink(predicates), order, limit, offset);
      var cols := AccountGroupColumns(fields, withAccount != null, withGroup != null);
      nodes := DecodeLinks(rows, cols, withAccount != null, withGroup != null);
    }

    /** Eager loading of the join entity: accounts and groups, each by one batched query. */
    method SqlAll(db: Database) returns (ok: bool, nodes: seq<AccountGroup>, ghost S: set<object>)
      requires Valid() && UnjoinedLinks(Edges())
      modifies Repr
      ensures Valid() && Repr == old(Repr)
      ensures Model() == old(Model()).(edges := NarrowLinkEdges(db, old(Edges()), AccountGroupRows(db, old(Model()))))
      ensures ok && fresh(S)
      ensures AllLinksDenote(S, nodes, LinkBatch(db, old(Edges()), old(fields), AccountGroupRows(db, old(Model()))))
      decreases Repr, 1
    {
      hide Denotes, LinkDenotes, AllLinksDenote, Distinct, LinkBatch, LinksDecoded, AccountEdge, LinkGroupEdge,
           NarrowedAccount, NarrowedLinkGroup, AccountsDenote, LinkGroupsDenote, AccountGroupRows, Unjoined,
           LinkAccountKeys, LinkGroupKeys, LinkAccountKeysOf, LinkGroupKeysOf, HeldLinkAccounts, HeldLinkGroups;
      ghost var e, rows := Edges(), AccountGroupRows(db, Model());
      nodes := QueryNodes(db);
      ok, S := true, {};
      SameLength(nodes, rows, fields, e);
      if |nodes| == 0 {
        NoLinks(db, e, fields);
        return;
      }
      LinkKeysRead(nodes, rows, fields, e);
      ghost var accounts;
      ok, accounts := LoadAccountEdge(db, nodes, rows);
      if ok {
        ok := LoadGroupEdge(db, nodes, rows);
      }
      S := (set n | n in nodes) + accounts;
      AssembleLinks(S, accounts, db, e, fields, rows, nodes);
    }

    method LoadAccountEdge(db: Database, nodes: seq<AccountGroup>, ghost rows: seq<AccountGroupRow>)
      returns (ok: bool, ghost S: set<object>)
      requires Valid() && (withAccount != null ==> Unjoined(withAccount.Edges()))
      requires Distinct(nodes) && forall n :: n in nodes ==> n !in Repr && n.account == null
      requires |nodes| == |rows| && (withAccount != null ==> LinkAccountKeysOf(nodes) == LinkAccountKeys(rows))
      modifies Repr, (set n | n in nodes)`account
      ensures Valid() && Repr == old(Repr) && unchanged(this)
      ensures Edges() == old(Edges()).(withAccount := NarrowedAccount(db, old(Edges()).withAccount,
                                                                      LinkAccountKeys(rows)))
      ensures ok && fresh(S)
      ensures AccountsDenote(S, HeldLinkAccounts(nodes),
                             AccountEdge(db, old(Edges()).withAccount, LinkAccountKeys(rows)))
      decreases Repr, 0, 0
    {
      hide Denotes, AccountsFor, NarrowAccount, Distinct;
      ok, S := true, {};
      if withAccount != null {
        ok, S := LoadAccount(db, withAccount, nodes);
      }
    }

    method LoadGroupEdge(db: Database, nodes: seq<AccountGroup>, ghost rows: seq<AccountGroupRow>) returns (ok: bool)
      requires Valid()
      requires Distinct(nodes) && forall n :: n in nodes ==> n !in Repr && n.group == null
      requires |nodes| == |rows| && (withGroup != null ==> LinkGroupKeysOf(nodes) == LinkGroupKeys(rows))
      modifies Repr, (set n | n in nodes)`group
      ensures Valid() && Repr == old(Repr) && unchanged(this)
      ensures Edges() == old(Edges()).(withGroup := NarrowedLinkGroup(old(Edges()).withGroup, LinkGroupKeys(rows)))
      ensures ok
      ensures LinkGroupsDenote(HeldLinkGroups(nodes), LinkGroupEdge(db, old(Edges()).withGroup, LinkGroupKeys(rows)))
    {
      hide LinkGroupsFor, NarrowGroup, Distinct;
      ok := true;
      if withGroup != null {
        ok := LoadGroup(db, withGroup, nodes);
      }
    }
  }

  /** One decoded join node per row, in order. */
  method DecodeLinks(rows: seq<AccountGroupRow>, cols: Option<seq<AccountGroupColumn>>, account: bool, group: bool)
    returns (nodes: seq<AccountGroup>)
    ensures |nodes| == |rows|
    ensures forall i :: 0 <= i < |rows| ==>
      nodes[i].row == ProjectAccountGroup(rows[i],
                                          cols) && nodes[i].accountLoaded == account && nodes[i].groupLoaded == group
    ensures Distinct(nodes) && forall n :: n in nodes ==> fresh(n) && n.account == null && n.group == null
  {
    hide ProjectAccountGroup;
    nodes := [];
    for i := 0 to |rows|
      invariant |nodes| == i && Distinct(nodes)
      invariant forall n :: n in nodes ==> fresh(n) && n.account == null && n.group == null
      invariant forall j :: 0 <= j < i ==>
        nodes[j].row == ProjectAccountGroup(rows[j],
                                            cols) && nodes[j].accountLoaded == account && nodes[j].groupLoaded == group
    {
      var node := new AccountGroup(ProjectAccountGroup(rows[i], cols), account, group);
      nodes := nodes + [node];
    }
  }

  ghost predicate LinksDecoded(nodes: seq<AccountGroup>, rows: seq<AccountGroupRow>, fields: seq<AccountGroupColumn>,
                               e: AccountGroupEdges)
  {
    && |nodes| == |rows|
    && forall i :: 0 <= i < |nodes| ==>
         && nodes[i].row == ProjectAccountGroup(rows[i], LinkColumnsOf(fields, e))
         && nodes[i].accountLoaded == e.withAccount.Some? && nodes[i].groupLoaded == e.withGroup.Some?
  }

  lemma {:induction false} SameLength(nodes: seq<AccountGroup>, rows: seq<AccountGroupRow>,
                                      fields: seq<AccountGroupColumn>, e: AccountGroupEdges)
    requires LinksDecoded(nodes, rows, fields, e)
    ensures |nodes| == |rows|
  {
  }

  lemma {:induction false} NoLinks(db: Database, e: AccountGroupEdges, fields: seq<AccountGroupColumn>)
    ensures LinkBatch(db, e, fields, []) == [] && AllLinksDenote({}, [], [])
    ensures NarrowLinkEdges(db, e, []) == e
  {
  }

  /** The foreign keys a requested edge reads were selected, so nodes carry those of their rows. */
  lemma {:induction false} LinkKeysRead(nodes: seq<AccountGroup>, rows: seq<AccountGroupRow>,
                                        fields: seq<AccountGroupColumn>, e: AccountGroupEdges)
    requires LinksDecoded(nodes, rows, fields, e)
    ensures e.withAccount.Some? ==> LinkAccountKeysOf(nodes) == LinkAccountKeys(rows)
    ensures e.withGroup.Some? ==> LinkGroupKeysOf(nodes) == LinkGroupKeys(rows)
  {
  }

  lemma {:induction false} AssembleLinks(S: set<object>, accounts: set<object>, db: Database, e: AccountGroupEdges,
                      fields: seq<AccountGroupColumn>, rows: seq<AccountGroupRow>, nodes: seq<AccountGroup>)
    requires LinksDecoded(nodes, rows, fields, e) && accounts <= S && forall n :: n in nodes ==> n in S
    requires AccountsDenote(accounts, HeldLinkAccounts(nodes), AccountEdge(db, e.withAccount, LinkAccountKeys(rows)))
    requires LinkGroupsDenote(HeldLinkGroups(nodes), LinkGroupEdge(db, e.withGroup, LinkGroupKeys(rows)))
    ensures AllLinksDenote(S, nodes, LinkBatch(db, e, fields, rows))
  {
    hide Denotes;
    var ts := AccountEdge(db, e.withAccount, LinkAccountKeys(rows));
    forall i | 0 <= i < |nodes| ensures LinkDenotes(S, nodes[i], LinkBatch(db, e, fields, rows)[i]) {
      assert HeldLinkAccounts(nodes)[i] == nodes[i].account && HeldLinkGroups(nodes)[i] == nodes[i].group;
      if nodes[i].account != null {
        DenotesInLarger(accounts, S, nodes[i].account, ts[i].value);
      }
    }
  }

  // What the neighbours of a batched query carry: their identifiers and foreign keys.

  lemma {:induction false} BatchRows(S: set<object>, db: Database, e: AccountEdges, fields: seq<Column>,
                                     rows: seq<AccountRow>, ns: seq<Account>)
    requires AllDenote(S, ns, Batch(db, e, fields, rows))
    ensures |ns| == |rows|
    ensures forall i :: 0 <= i < |ns| ==> ns[i] in S && ns[i].row == ProjectAccount(rows[i], ColumnsOf(fields, e))
    ensures IDsOf(ns) == AccountIDs(rows)
  {
  }

  /** Every neighbour of a query restricted to some identifiers was asked for. */
  lemma {:induction false} AskedRow(db: Database, q: AccountQ, ids: seq<int>, r: AccountRow)
    requires r in AccountRows(db, OfIDs(q, ids))
    ensures r.id in ids
  {
    SelectMember(db.accounts, Keeps(OfIDs(q, ids).predicates), q.order, q.limit, q.offset, r);
    AllHoldAppend(q.predicates, AccountIDIn(ids), r);
  }

  lemma {:induction false} AskedFor(S: set<object>, db: Database, q: AccountQ, ids: seq<int>, neighbors: seq<Account>)
    requires AllDenote(S, neighbors, Batch(db, q.edges, q.fields, AccountRows(db, OfIDs(q, ids))))
    ensures forall j :: 0 <= j < |neighbors| ==> neighbors[j].row.id in ids
  {
    hide AccountRows, OfIDs, AllDenote, Batch;
    var rows := AccountRows(db, OfIDs(q, ids));
    BatchRows(S, db, q.edges, q.fields, rows, neighbors);
    forall j | 0 <= j < |neighbors| ensures neighbors[j].row.id in ids {
      AskedRow(db, q, ids, rows[j]);
    }
  }

  lemma {:induction false} StitchedAccounts(S: set<object>, db: Database, q: AccountQ, keys: seq<Option<int>>,
                                            was: seq<Account?>,
                         neighbors: seq<Account>)
    requires |was| == |keys| && forall i :: 0 <= i < |was| ==> was[i] == null
    requires DistinctKeys(keys) != []
    requires AllDenote(S, neighbors, Batch(db, q.edges, q.fields, AccountRows(db, OfIDs(q, DistinctKeys(keys)))))
    ensures AccountsDenote(S, AssignAll(was, keys, IDsOf(neighbors), neighbors, |neighbors|), AccountsFor(db, q, keys))
  {
    hide Denotes, Batch, AssignAll, PickLast, AccountRows;
    var rows := AccountRows(db, OfIDs(q, DistinctKeys(keys)));
    var ts := Batch(db, q.edges, q.fields, rows);
    BatchRows(S, db, q.edges, q.fields, rows, neighbors);
    assert IDKeys(rows)[..|rows|] == IDKeys(rows) && ts[..|rows|] == ts;
    forall i | 0 <= i < |keys|
      ensures AccountDenotes(S, AssignAll(was, keys, IDsOf(neighbors), neighbors, |neighbors|)[i],
                             AccountsFor(db, q, keys)[i])
    {
      AssignedAccount(S, was, keys, IDsOf(neighbors), neighbors, rows, ts, |neighbors|, i);
    }
  }

  lemma {:induction false} NobodyAsked(db: Database, q: AccountQ, keys: seq<Option<int>>, was: seq<Account?>)
    requires |was| == |keys| && forall i :: 0 <= i < |was| ==> was[i] == null
    requires DistinctKeys(keys) == []
    ensures AccountsDenote({}, was, AccountsFor(db, q, keys)) && NarrowAccount(db, q, keys) == q
  {
    assert forall i :: 0 <= i < |keys| ==> keys[i] in keys;
  }

  lemma {:induction false} NarrowedByKeys(db: Database, q: AccountQ, keys: seq<Option<int>>)
    requires DistinctKeys(keys) != []
    ensures var narrow := OfIDs(q, DistinctKeys(keys));
      NarrowAccount(db, q, keys) == narrow.(edges := NarrowEdges(db, q.edges, AccountRows(db, narrow)))
  {
    hide NarrowEdges, AccountRows;
  }

  lemma {:induction false} AskedIsIndexed<N>(nodeids: map<int, seq<N>>, nodes: seq<N>, keys: seq<Option<int>>)
    requires |keys| == |nodes| && Indexes(nodeids, nodes, keys)
    ensures forall k :: k in DistinctKeys(keys) ==> k in nodeids
  {
  }

  /** The nested query of a many-to-one edge. */
  method AccountsByID(db: Database, query: AccountQuery, ids: seq<int>)
    returns (ok: bool, neighbors: seq<Account>, ghost S: set<object>)
    requires query.Valid() && Unjoined(query.Edges())
    modifies query.Repr
    ensures query.Valid() && query.Repr == old(query.Repr)
    ensures var q := old(query.Model());
      && query.Model() == OfIDs(q, ids).(edges := NarrowEdges(db, q.edges, AccountRows(db, OfIDs(q, ids))))
      && AllDenote(S, neighbors, Batch(db, q.edges, q.fields, AccountRows(db, OfIDs(q, ids))))
    ensures ok && fresh(S)
    ensures forall j :: 0 <= j < |neighbors| ==> neighbors[j].row.id in ids
    decreases query.Repr, 2
  {
    hide Denotes, Batch, NarrowEdges, AccountRows, Unjoined;
    ghost var q := query.Model();
    query.Where(AccountIDIn(ids));
    ok, neighbors, S := query.SqlAll(db);
    AskedFor(S, db, q, ids, neighbors);
  }

  method LoadParent(db: Database, query: AccountQuery, nodes: seq<Account>) returns (ok: bool, ghost S: set<object>)
    requires query.Valid() && Unjoined(query.Edges())
    requires Distinct(nodes) && forall n :: n in nodes ==> n !in query.Repr && n.parent == null
    modifies query.Repr, (set n | n in nodes)`parent
    ensures query.Valid() && query.Repr == old(query.Repr)
    ensures query.Model() == NarrowAccount(db, old(query.Model()), ParentKeysOf(nodes))
    ensures ok && fresh(S)
    ensures AccountsDenote(S, HeldParents(nodes), AccountsFor(db, old(query.Model()), ParentKeysOf(nodes)))
    decreases query.Repr, 3
  {
    hide *;
    ghost var q, was := query.Model(), HeldParents(nodes);
    var keys := ParentKeysOf(nodes);
    var ids, nodeids := GroupByKey(nodes, keys);
    ok, S := true, {};
    if |ids| == 0 {
      NobodyAsked(db, q, keys, was);
      return;
    }
    var neighbors;
    ok, neighbors, S := AccountsByID(db, query, ids);
    if ok {
      StitchedAccounts(S, db, q, keys, was, neighbors);
      NarrowedByKeys(db, q, keys);
      AskedIsIndexed(nodeids, nodes, keys);
      ghost var upto;
      ok, upto := StitchParent(nodes, keys, nodeids, neighbors);
    }
  }

  // Proxies.

  lemma {:induction false} NarrowingProxies(q: ProxyQ, ids: seq<int>)
    ensures OfProxies(q, ids) == q.(predicates := q.predicates + [ProxyIDIn(ids)])
  {
  }

  lemma {:induction false} NoProxies(db: Database, q: ProxyQ, keys: seq<Option<int>>, was: seq<Proxy?>)
    requires |was| == |keys| && forall i :: 0 <= i < |was| ==> was[i] == null
    requires DistinctKeys(keys) == []
    ensures ProxiesDenote(was, ProxiesFor(db, q, keys)) && NarrowProxy(q, keys) == q
  {
    assert forall i :: 0 <= i < |keys| ==> keys[i] in keys;
  }

  lemma {:induction false} StitchedProxies(db: Database, q: ProxyQ, keys: seq<Option<int>>, was: seq<Proxy?>,
                                           neighbors: seq<Proxy>)
    requires |was| == |keys| && forall i :: 0 <= i < |was| ==> was[i] == null
    requires DistinctKeys(keys) != []
    requires var rows := ProxyRows(db, OfProxies(q, DistinctKeys(keys)));
      |neighbors| == |rows| && forall j :: 0 <= j < |rows| ==> neighbors[j].row == rows[j]
    ensures ProxiesDenote(AssignAll(was, keys, ProxyIDsOf(neighbors), neighbors, |neighbors|), ProxiesFor(db, q, keys))
    ensures NarrowProxy(q, keys) == OfProxies(q, DistinctKeys(keys))
    ensures forall j :: 0 <= j < |neighbors| ==> Some(neighbors[j].row.id) in keys
  {
    hide AssignAll, PickLast;
    var q' := OfProxies(q, DistinctKeys(keys));
    var rows := ProxyRows(db, q');
    assert ProxyIDKeys(rows)[..|rows|] == ProxyIDKeys(rows) && rows[..|rows|] == rows;
    forall j | 0 <= j < |neighbors| ensures Some(neighbors[j].row.id) in keys {
      SelectMember(db.proxies, KeepsProxy(q'.predicates), q'.order, q'.limit, q'.offset, rows[j]);
      assert q'.predicates[|q.predicates|] == ProxyIDIn(DistinctKeys(keys));
    }
    forall i | 0 <= i < |keys|
      ensures ProxyDenotes(AssignAll(was, keys, ProxyIDsOf(neighbors), neighbors, |neighbors|)[i],
                           ProxiesFor(db, q, keys)[i])
    {
      AssignedProxy(was, keys, ProxyIDsOf(neighbors), neighbors, rows, |neighbors|, i);
    }
  }

  method LoadProxy(db: Database, query: ProxyQuery, nodes: seq<Account>) returns (ok: bool)
    requires Distinct(nodes) && forall n :: n in nodes ==> n.proxy == null
    modifies query, (set n | n in nodes)`proxy
    ensures query.Model() == NarrowProxy(old(query.Model()), ProxyKeysOf(nodes))
    ensures ok
    ensures ProxiesDenote(HeldProxies(nodes), ProxiesFor(db, old(query.Model()), ProxyKeysOf(nodes)))
  {
    hide *;
    ghost var q, was := query.Model(), HeldProxies(nodes);
    var keys := ProxyKeysOf(nodes);
    var ids, nodeids := GroupByKey(nodes, keys);
    if |ids| == 0 {
      NoProxies(db, q, keys, was);
      return true;
    }
    query.Where(ProxyIDIn(ids));
    assert query.Model() == OfProxies(q, ids) by { NarrowingProxies(q, ids); }
    var neighbors := query.All(db);
    StitchedProxies(db, q, keys, was, neighbors);
    ghost var upto;
    ok, upto := StitchProxy(nodes, keys, nodeids, neighbors);
  }

  // Groups.

  lemma {:induction false} StitchedGroups(stream: seq<JoinRow>, nodes: seq<Account>, ids: seq<int>, byID: map<int,
                                          Account>,
                                          nids: map<int, set<Account?>>, was: seq<seq<Group>>, neighbors: seq<Group>)
    requires |was| == |nodes| == |ids| && forall i :: 0 <= i < |was| ==> was[i] == []
    requires Distinct(nodes) && LastIndexes(byID, nodes, ids)
    requires forall j :: j in stream ==> j.accountID in ids
    requires GroupsDenote(neighbors, GroupNodes(stream))
    requires forall g :: g in nids <==> Holds(GroupNodes(stream), g)
    requires forall g :: g in nids ==> nids[g] == JoinedTo(stream, byID, g, |stream|)
    ensures forall g :: g in nids ==> Within(nids[g], nodes)
    ensures forall j :: 0 <= j < |neighbors| ==> neighbors[j].row.id in nids
    ensures GroupListsDenote(GiveAll(was, nodes, nids, neighbors, |neighbors|), GroupLists(stream, ids))
  {
    hide GroupNodes, JoinedTo, GiveAll, Distinct, LastIndexes;
    var rows := GroupNodes(stream);
    assert rows[..|rows|] == rows;
    forall g | g in nids ensures Within(nids[g], nodes) {
      JoinedToWithin(stream, byID, nodes, ids, g);
    }
    forall i | 0 <= i < |nodes|
      ensures GroupsDenote(GiveAll(was, nodes, nids, neighbors, |neighbors|)[i], GroupLists(stream, ids)[i])
    {
      var keep := (g: GroupRow) => LastHolder(ids, i) && Joins(stream, ids[i], g.id);
      forall j | 0 <= j < |neighbors| ensures nodes[i] in nids[rows[j].id] <==> keep(rows[j]) {
        JoinedToNode(stream, byID, nodes, ids, rows[j].id, i);
      }
      GivenGroups(was, nodes, nids, neighbors, rows, |neighbors|, i, keep);
      if LastHolder(ids, i) {
        FilterCongruent(rows, keep, (g: GroupRow) => Joins(stream, ids[i], g.id));
      } else {
        FilterNone(rows, keep);
      }
    }
  }

  /**
   * Reading a join stream, whatever its order and however the account sets are iterated: each account
   * ends with the groups joined to it, each once, in order of first appearance.
   */
  method SpreadGroups(nodes: seq<Account>, ids: seq<int>, byID: map<int, Account>,
                      stream: seq<JoinRow>) returns (ok: bool)
    requires |ids| == |nodes| && Distinct(nodes) && LastIndexes(byID, nodes, ids)
    requires forall j :: j in stream ==> j.accountID in ids
    requires forall n :: n in nodes ==> n.groups == []
    modifies (set n | n in nodes)`groups
    ensures ok
    ensures GroupListsDenote(HeldGroups(nodes), GroupLists(stream, ids))
    ensures forall i :: 0 <= i < |ids| && LastHolder(ids, i) ==> HoldsJoined(HeldGroups(nodes)[i], stream, ids[i])
  {
    hide *;
    ghost var was := HeldGroups(nodes);
    var neighbors, nids := ScanJoin(stream, byID);
    StitchedGroups(stream, nodes, ids, byID, nids, was, neighbors);
    ghost var upto;
    ok, upto := StitchGroups(nodes, nids, neighbors);
    forall i | 0 <= i < |ids| && LastHolder(ids, i) ensures HoldsJoined(HeldGroups(nodes)[i], stream, ids[i]) {
      DenotesJoined(HeldGroups(nodes), stream, ids, i);
    }
  }

  /** Exactly the groups the stream joins to an account, each once. */
  ghost predicate HoldsJoined(groups: seq<Group>, stream: seq<JoinRow>, a: int) {
    && (forall j, k :: 0 <= j < k < |groups| ==> groups[j].row.id != groups[k].row.id)
    && (forall id :: Joins(stream, a, id) <==> exists k :: 0 <= k < |groups| && groups[k].row.id == id)
  }

  lemma {:induction false} DenotesJoined(held: seq<seq<Group>>, stream: seq<JoinRow>, ids: seq<int>, i: nat)
    requires GroupListsDenote(held, GroupLists(stream, ids)) && i < |ids| && LastHolder(ids, i)
    ensures |held| == |ids| && HoldsJoined(held[i], stream, ids[i])
  {
    hide GroupNodes, Joins;
    var groups, rows := held[i], GroupsOf(stream, ids[i]);
    GroupsOfExactly(stream, ids[i]);
    assert GroupsDenote(groups, rows);
    forall id ensures Joins(stream, ids[i], id) <==> exists k :: 0 <= k < |groups| && groups[k].row.id == id {
      assert Joins(stream, ids[i], id) <==> Holds(rows, id);
      if Holds(rows, id) {
        var k :| 0 <= k < |rows| && rows[k].id == id;
        assert groups[k].row.id == id;
      }
    }
  }

  method LoadGroups(db: Database, query: GroupQuery, nodes: seq<Account>) returns (ok: bool)
    requires query.joined.None?
    requires Distinct(nodes)
    modifies query, (set n | n in nodes)`groups
    ensures query.Model() == old(query.Model()).(joined := Some(IDsOf(nodes)))
    ensures ok
    ensures GroupListsDenote(HeldGroups(nodes), GroupsFor(db, old(query.Model()), IDsOf(nodes)))
  {
    hide Distinct, GroupLists, JoinRows, LastIndexes, GroupListsDenote;
    var edgeIDs := IDsOf(nodes);
    var byID := IndexByID(nodes, edgeIDs);
    ClearGroups(nodes);
    var stream := query.JoinedRows(db, edgeIDs);
    ok := SpreadGroups(nodes, edgeIDs, byID, stream);
  }

  method ClearGroups(nodes: seq<Account>)
    modifies (set n | n in nodes)`groups
    ensures forall n :: n in nodes ==> n.groups == []
  {
    for i := 0 to |nodes|
      invariant forall k :: 0 <= k < i ==> nodes[k].groups == []
    {
      nodes[i].groups := [];
    }
  }

  // Children.

  lemma {:induction false} StitchedChildren(S: set<object>, db: Database, q: AccountQ, ids: seq<int>,
                                            was: seq<seq<Account>>, neighbors: seq<Account>)
    requires |was| == |ids| && forall i :: 0 <= i < |was| ==> was[i] == []
    requires AllDenote(S, neighbors, Batch(db, q.edges, OfParents(q, ids).fields, AccountRows(db, OfParents(q, ids))))
    ensures ForestsDenote(S, AppendAll(was, ids, ParentKeysOf(neighbors), neighbors, |neighbors|),
                          ChildrenFor(db, q, ids))
    ensures forall j :: 0 <= j < |neighbors| ==>
      neighbors[j].row.parentAccountID.Some? && neighbors[j].row.parentAccountID.value in ids
  {
    hide Denotes, Batch, AppendAll, Pick, AccountRows;
    var q' := OfParents(q, ids);
    var rows := AccountRows(db, q');
    var ts := Batch(db, q.edges, q'.fields, rows);
    BatchRows(S, db, q.edges, q'.fields, rows, neighbors);
    assert ParentKeysOf(neighbors) == ParentKeys(rows);
    assert ParentKeys(rows)[..|rows|] == ParentKeys(rows) && ts[..|rows|] == ts;
    forall j | 0 <= j < |neighbors|
      ensures rows[j].parentAccountID.Some? && rows[j].parentAccountID.value in ids
    {
      MemberOfParents(db, q, ids, rows[j]);
    }
    forall i | 0 <= i < |ids|
      ensures AllDenote(S, AppendAll(was, ids, ParentKeysOf(neighbors), neighbors, |neighbors|)[i],
                        ChildrenFor(db, q, ids)[i])
    {
      AppendedChildren(S, was, ids, ParentKeysOf(neighbors), neighbors, ts, |neighbors|, i);
    }
  }

  lemma {:induction false} MemberOfParents(db: Database, q: AccountQ, ids: seq<int>, r: AccountRow)
    requires r in AccountRows(db, OfParents(q, ids))
    ensures r.parentAccountID.Some? && r.parentAccountID.value in ids
  {
    SelectMember(db.accounts, Keeps(OfParents(q, ids).predicates), q.order, q.limit, q.offset, r);
    AllHoldAppend(q.predicates, ParentIn(ids), r);
  }

  /** The nested query of the children edge. */
  method AccountsByParent(db: Database, query: AccountQuery, fks: seq<int>)
    returns (ok: bool, neighbors: seq<Account>, ghost S: set<object>)
    requires query.Valid() && Unjoined(query.Edges())
    modifies query.Repr
    ensures query.Valid() && query.Repr == old(query.Repr)
    ensures var q := old(query.Model());
      && query.Model() == NarrowChildren(db, q, fks)
      && AllDenote(S, neighbors, Batch(db, q.edges, OfParents(q, fks).fields, AccountRows(db, OfParents(q, fks))))
    ensures ok && fresh(S)
    decreases query.Repr, 2
  {
    hide Denotes, Batch, NarrowEdges, AccountRows, Unjoined;
    query.AppendField(ParentAccountID);
    query.Where(ParentIn(fks));
    ok, neighbors, S := query.SqlAll(db);
  }

  method LoadChildren(db: Database, query: AccountQuery, nodes: seq<Account>) returns (ok: bool, ghost S: set<object>)
    requires query.Valid() && Unjoined(query.Edges())
    requires Distinct(nodes) && forall n :: n in nodes ==> n !in query.Repr
    modifies query.Repr, (set n | n in nodes)`children
    ensures query.Valid() && query.Repr == old(query.Repr)
    ensures query.Model() == NarrowChildren(db, old(query.Model()), IDsOf(nodes))
    ensures ok && fresh(S)
    ensures ForestsDenote(S, HeldChildren(nodes), ChildrenFor(db, old(query.Model()), IDsOf(nodes)))
    decreases query.Repr, 3
  {
    hide Denotes, Distinct, Batch, NarrowChildren, AccountRows, Unjoined, AppendAll, Pick, AllDenote;
    ghost var q := query.Model();
    var fks := IDsOf(nodes);
    var nodeids := IndexByID(nodes, fks);
    ClearChildren(nodes);
    ghost var was := HeldChildren(nodes);
    var neighbors;
    ok, neighbors, S := AccountsByParent(db, query, fks);
    if ok {
      StitchedChildren(S, db, q, fks, was, neighbors);
      ghost var upto;
      ok, upto := StitchChildren(nodes, fks, nodeids, neighbors);
    }
  }

  method ClearChildren(nodes: seq<Account>)
    modifies (set n | n in nodes)`children
    ensures forall n :: n in nodes ==> n.children == []
  {
    for i := 0 to |nodes|
      invariant forall k :: 0 <= k < i ==> nodes[k].children == []
    {
      nodes[i].children := [];
    }
  }

  // The join entity.

  lemma {:induction false} LinkBatchRows(S: set<object>, db: Database, e: AccountGroupEdges,
                                         fields: seq<AccountGroupColumn>,
                      rows: seq<AccountGroupRow>, ns: seq<AccountGroup>)
    requires AllLinksDenote(S, ns, LinkBatch(db, e, fields, rows))
    ensures |ns| == |rows|
    ensures forall i :: 0 <= i < |ns| ==>
      ns[i] in S && ns[i].row == ProjectAccountGroup(rows[i], LinkColumnsOf(fields, e))
  {
  }

  lemma {:induction false} MemberOfAccounts(db: Database, q: AccountGroupQ, ids: seq<int>, r: AccountGroupRow)
    requires r in AccountGroupRows(db, OfAccounts(q, ids))
    ensures r.accountID in ids
  {
    var q' := OfAccounts(q, ids);
    SelectMember(db.accountGroups, KeepsLink(q'.predicates), q'.order, q'.limit, q'.offset, r);
    assert q'.predicates[|q.predicates|] == AccountGroupAccountIn(ids);
  }

  lemma {:induction false} StitchedLinks(S: set<object>, db: Database, q: AccountGroupQ, ids: seq<int>,
                                         was: seq<seq<AccountGroup>>,
                      neighbors: seq<AccountGroup>)
    requires |was| == |ids| && forall i :: 0 <= i < |was| ==> was[i] == []
    requires AllLinksDenote(S, neighbors,
                            LinkBatch(db, q.edges, OfAccounts(q, ids).fields, AccountGroupRows(db, OfAccounts(q, ids))))
    ensures LinkForestsDenote(S, AppendAll(was, ids, LinkAccountKeysOf(neighbors), neighbors, |neighbors|),
                              AccountGroupsFor(db, q, ids))
    ensures forall j :: 0 <= j < |neighbors| ==> neighbors[j].row.accountID in ids
  {
    hide LinkDenotes, LinkBatch, AppendAll, Pick, AccountGroupRows;
    var q' := OfAccounts(q, ids);
    var rows := AccountGroupRows(db, q');
    var ts := LinkBatch(db, q.edges, q'.fields, rows);
    LinkBatchRows(S, db, q.edges, q'.fields, rows, neighbors);
    assert LinkAccountKeysOf(neighbors) == LinkAccountKeys(rows);
    assert LinkAccountKeys(rows)[..|rows|] == LinkAccountKeys(rows) && ts[..|rows|] == ts;
    forall j | 0 <= j < |neighbors| ensures rows[j].accountID in ids {
      MemberOfAccounts(db, q, ids, rows[j]);
    }
    forall i | 0 <= i < |ids|
      ensures AllLinksDenote(S, AppendAll(was, ids, LinkAccountKeysOf(neighbors), neighbors, |neighbors|)[i],
                             AccountGroupsFor(db, q, ids)[i])
    {
      AppendedLinks(S, was, ids, LinkAccountKeysOf(neighbors), neighbors, ts, |neighbors|, i);
    }
  }

  /** The nested query of the account-groups edge. */
  method LinksByAccount(db: Database, query: AccountGroupQuery, fks: seq<int>)
    returns (ok: bool, neighbors: seq<AccountGroup>, ghost S: set<object>)
    requires query.Valid() && UnjoinedLinks(query.Edges())
    modifies query.Repr
    ensures query.Valid() && query.Repr == old(query.Repr)
    ensures var q := old(query.Model());
      && query.Model() == NarrowLinks(db, q, fks)
      && AllLinksDenote(S, neighbors,
                        LinkBatch(db, q.edges, OfAccounts(q, fks).fields, AccountGroupRows(db, OfAccounts(q, fks))))
    ensures ok && fresh(S)
    decreases query.Repr, 2
  {
    hide LinkDenotes, LinkBatch, NarrowLinkEdges, AccountGroupRows, UnjoinedLinks;
    query.AppendField(AccountID);
    query.Where(AccountGroupAccountIn(fks));
    ok, neighbors, S := query.SqlAll(db);
  }

  method LoadAccountGroups(db: Database, query: AccountGroupQuery, nodes: seq<Account>)
    returns (ok: bool, ghost S: set<object>)
    requires query.Valid() && UnjoinedLinks(query.Edges())
    requires Distinct(nodes) && forall n :: n in nodes ==> n !in query.Repr
    modifies query.Repr, (set n | n in nodes)`accountGroups
    ensures query.Valid() && query.Repr == old(query.Repr)
    ensures query.Model() == NarrowLinks(db, old(query.Model()), IDsOf(nodes))
    ensures ok && fresh(S)
    ensures LinkForestsDenote(S, HeldAccountGroups(nodes), AccountGroupsFor(db, old(query.Model()), IDsOf(nodes)))
    decreases query.Repr, 3
  {
    hide LinkDenotes, AllLinksDenote, Distinct, LinkBatch, NarrowLinks, AccountGroupRows, UnjoinedLinks, AppendAll;
    hide Pick;
    ghost var q := query.Model();
    var fks := IDsOf(nodes);
    var nodeids := IndexByID(nodes, fks);
    ClearAccountGroups(nodes);
    ghost var was := HeldAccountGroups(nodes);
    var neighbors;
    ok, neighbors, S := LinksByAccount(db, query, fks);
    if ok {
      StitchedLinks(S, db, q, fks, was, neighbors);
      ghost var upto;
      ok, upto := StitchAccountGroups(nodes, fks, nodeids, neighbors);
    }
  }

  method ClearAccountGroups(nodes: seq<Account>)
    modifies (set n | n in nodes)`accountGroups
    ensures forall n :: n in nodes ==> n.accountGroups == []
  {
    for i := 0 to |nodes|
      invariant forall k :: 0 <= k < i ==> nodes[k].accountGroups == []
    {
      nodes[i].accountGroups := [];
    }
  }

  method LoadAccount(db: Database, query: AccountQuery, nodes: seq<AccountGroup>)
    returns (ok: bool, ghost S: set<object>)
    requires query.Valid() && Unjoined(query.Edges())
    requires Distinct(nodes) && forall n :: n in nodes ==> n !in query.Repr && n.account == null
    modifies query.Repr, (set n | n in nodes)`account
    ensures query.Valid() && query.Repr == old(query.Repr)
    ensures query.Model() == NarrowAccount(db, old(query.Model()), LinkAccountKeysOf(nodes))
    ensures ok && fresh(S)
    ensures AccountsDenote(S, HeldLinkAccounts(nodes), AccountsFor(db, old(query.Model()), LinkAccountKeysOf(nodes)))
    decreases query.Repr, 3
  {
    hide *;
    ghost var q, was := query.Model(), HeldLinkAccounts(nodes);
    var keys := LinkAccountKeysOf(nodes);
    var ids, nodeids := GroupByKey(nodes, keys);
    ok, S := true, {};
    if |ids| == 0 {
      NobodyAsked(db, q, keys, was);
      return;
    }
    var neighbors;
    ok, neighbors, S := AccountsByID(db, query, ids);
    if ok {
      StitchedAccounts(S, db, q, keys, was, neighbors);
      NarrowedByKeys(db, q, keys);
      AskedIsIndexed(nodeids, nodes, keys);
      ghost var upto;
      ok, upto := StitchLinkAccount(nodes, keys, nodeids, neighbors);
    }
  }

  lemma {:induction false} NarrowingGroups(q: GroupQ, ids: seq<int>)
    ensures OfGroups(q, ids) == q.(predicates := q.predicates + [GroupIDIn(ids)])
  {
  }

  lemma {:induction false} NoLinkGroups(db: Database, q: GroupQ, keys: seq<Option<int>>, was: seq<Group?>)
    requires |was| == |keys| && forall i :: 0 <= i < |was| ==> was[i] == null
    requires DistinctKeys(keys) == []
    ensures LinkGroupsDenote(was, LinkGroupsFor(db, q, keys)) && NarrowGroup(q, keys) == q
  {
    assert forall i :: 0 <= i < |keys| ==> keys[i] in keys;
  }

  lemma {:induction false} StitchedLinkGroups(db: Database, q: GroupQ, keys: seq<Option<int>>, was: seq<Group?>,
                                              neighbors: seq<Group>)
    requires |was| == |keys| && forall i :: 0 <= i < |was| ==> was[i] == null
    requires DistinctKeys(keys) != []
    requires GroupsDenote(neighbors, GroupRows(db, OfGroups(q, DistinctKeys(keys))))
    ensures LinkGroupsDenote(AssignAll(was, keys, GroupIDsOf(neighbors), neighbors, |neighbors|),
                             LinkGroupsFor(db, q, keys))
    ensures NarrowGroup(q, keys) == OfGroups(q, DistinctKeys(keys))
    ensures forall j :: 0 <= j < |neighbors| ==> Some(neighbors[j].row.id) in keys
  {
    hide AssignAll, PickLast;
    var q' := OfGroups(q, DistinctKeys(keys));
    var rows := GroupRows(db, q');
    assert GroupIDKeys(rows)[..|rows|] == GroupIDKeys(rows) && rows[..|rows|] == rows;
    forall j | 0 <= j < |neighbors| ensures Some(neighbors[j].row.id) in keys {
      SelectMember(db.groups, KeepsGroup(q'.predicates), q'.order, q'.limit, q'.offset, rows[j]);
      assert q'.predicates[|q.predicates|] == GroupIDIn(DistinctKeys(keys));
    }
    forall i | 0 <= i < |keys|
      ensures GroupDenotes(AssignAll(was, keys, GroupIDsOf(neighbors), neighbors, |neighbors|)[i],
                           LinkGroupsFor(db, q, keys)[i])
    {
      AssignedGroup(was, keys, GroupIDsOf(neighbors), neighbors, rows, |neighbors|, i);
    }
  }

  method LoadGroup(db: Database, query: GroupQuery, nodes: seq<AccountGroup>) returns (ok: bool)
    requires Distinct(nodes) && forall n :: n in nodes ==> n.group == null
    modifies query, (set n | n in nodes)`group
    ensures query.Model() == NarrowGroup(old(query.Model()), LinkGroupKeysOf(nodes))
    ensures ok
    ensures LinkGroupsDenote(HeldLinkGroups(nodes), LinkGroupsFor(db, old(query.Model()), LinkGroupKeysOf(nodes)))
  {
    hide *;
    ghost var q, was := query.Model(), HeldLinkGroups(nodes);
    var keys := LinkGroupKeysOf(nodes);
    var ids, nodeids := GroupByKey(nodes, keys);
    if |ids| == 0 {
      NoLinkGroups(db, q, keys, was);
      return true;
    }
    query.Where(GroupIDIn(ids));
    assert query.Model() == OfGroups(q, ids) by { NarrowingGroups(q, ids); }
    var neighbors := query.All(db);
    StitchedLinkGroups(db, q, keys, was, neighbors);
    ghost var upto;
    ok, upto := StitchLinkGroup(nodes, keys, nodeids, neighbors);
  }
}
