/** The heap nodes that eager loading builds and links, and the trees they denote. */
module Graph {
  import opened Collections
  import opened Schema
  import opened QueryModel

  class Proxy {
    const row: ProxyRow

    constructor (row: ProxyRow)
      ensures this.row == row
    {
      this.row := row;
    }
  }

  class Group {
    const row: GroupRow

    constructor (row: GroupRow)
      ensures this.row == row
    {
      this.row := row;
    }
  }

  datatype Lookup<+T> = Found(node: T) | NotFound | NotLoaded

  /** A decoded account row and its edges; only the edges change after decoding. */
  class Account {
    const row: AccountRow
    const loaded: Loaded
    var groups: seq<Group>
    var proxy: Proxy?
    var parent: Account?
    var children: seq<Account>
    var accountGroups: seq<AccountGroup>

    constructor (row: AccountRow, loaded: Loaded)
      ensures this.row == row && this.loaded == loaded
      ensures groups == [] && proxy == null && parent == null && children == [] && accountGroups == []
    {
      this.row, this.loaded := row, loaded;
      groups, proxy, parent, children, accountGroups := [], null, null, [], [];
    }

    function ProxyOrErr(): Lookup<Proxy>
      reads this
    {
      if proxy != null then Found(proxy) else if loaded.proxy then NotFound else NotLoaded
    }

    function ParentOrErr(): Lookup<Account>
      reads this
    {
      if parent != null then Found(parent) else if loaded.parent then NotFound else NotLoaded
    }

    function GroupsOrErr(): Lookup<seq<Group>>
      reads this
    {
      if loaded.groups then Found(groups) else NotLoaded
    }

    function ChildrenOrErr(): Lookup<seq<Account>>
      reads this
    {
      if loaded.children then Found(children) else NotLoaded
    }

    function AccountGroupsOrErr(): Lookup<seq<AccountGroup>>
      reads this
    {
      if loaded.accountGroups then Found(accountGroups) else NotLoaded
    }
  }

  /** A decoded row of the join entity and its two edges. */
  class AccountGroup {
    const row: AccountGroupRow
    const accountLoaded: bool
    const groupLoaded: bool
    var account: Account?
    var group: Group?

    constructor (row: AccountGroupRow, accountLoaded: bool, groupLoaded: bool)
      ensures this.row == row && this.accountLoaded == accountLoaded && this.groupLoaded == groupLoaded
      ensures account == null && group == null
    {
      this.row, this.accountLoaded, this.groupLoaded := row, accountLoaded, groupLoaded;
      account, group := null, null;
    }
  }

  // Denotation: the graph below a node, inside the node set S, unfolds to a tree.

  ghost predicate GroupsDenote(ns: seq<Group>, rs: seq<GroupRow>) {
    |ns| == |rs| && forall i :: 0 <= i < |ns| ==> ns[i].row == rs[i]
  }

  ghost predicate GroupDenotes(n: Group?, r: Option<GroupRow>) {
    if n == null then r.None? else r == Some(n.row)
  }

  ghost predicate ProxyDenotes(n: Proxy?, r: Option<ProxyRow>) {
    if n == null then r.None? else r == Some(n.row)
  }

  ghost predicate Denotes(S: set<object>, n: Account, t: AccountTree)
    reads S
    decreases t, 0
  {
    && n in S
    && n.row == t.row && n.loaded == t.loaded
    && GroupsDenote(n.groups, t.groups)
    && ProxyDenotes(n.proxy, t.proxy)
    && (if n.parent == null then t.parent.None? else t.parent.Some? && Denotes(S, n.parent, t.parent.value))
    && |n.children| == |t.children|
    && (forall i :: 0 <= i < |t.children| ==> Denotes(S, n.children[i], t.children[i]))
    && |n.accountGroups| == |t.accountGroups|
    && (forall i :: 0 <= i < |t.accountGroups| ==> LinkDenotes(S, n.accountGroups[i], t.accountGroups[i]))
  }

  ghost predicate LinkDenotes(S: set<object>, n: AccountGroup, t: AccountGroupTree)
    reads S
    decreases t, 0
  {
    && n in S
    && n.row == t.row && n.accountLoaded == t.accountLoaded && n.groupLoaded == t.groupLoaded
    && (if n.account == null then t.account.None? else t.account.Some? && Denotes(S, n.account, t.account.value))
    && GroupDenotes(n.group, t.group)
  }

  ghost predicate AllDenote(S: set<object>, ns: seq<Account>, ts: seq<AccountTree>)
    reads S
  {
    |ns| == |ts| && forall i :: 0 <= i < |ns| ==> Denotes(S, ns[i], ts[i])
  }

  ghost predicate AllLinksDenote(S: set<object>, ns: seq<AccountGroup>, ts: seq<AccountGroupTree>)
    reads S
  {
    |ns| == |ts| && forall i :: 0 <= i < |ns| ==> LinkDenotes(S, ns[i], ts[i])
  }

  lemma {:induction false} DenotesInLarger(S: set<object>, S': set<object>, n: Account, t: AccountTree)
    requires S <= S' && Denotes(S, n, t)
    ensures Denotes(S', n, t)
    decreases t
  {
    if t.parent.Some? {
      DenotesInLarger(S, S', n.parent, t.parent.value);
    }
    forall i | 0 <= i < |t.children| ensures Denotes(S', n.children[i], t.children[i]) {
      DenotesInLarger(S, S', n.children[i], t.children[i]);
    }
    forall i | 0 <= i < |t.accountGroups| ensures LinkDenotes(S', n.accountGroups[i], t.accountGroups[i]) {
      LinkDenotesInLarger(S, S', n.accountGroups[i], t.accountGroups[i]);
    }
  }

  lemma {:induction false} LinkDenotesInLarger(S: set<object>, S': set<object>, n: AccountGroup, t: AccountGroupTree)
    requires S <= S' && LinkDenotes(S, n, t)
    ensures LinkDenotes(S', n, t)
    decreases t
  {
    if t.account.Some? {
      DenotesInLarger(S, S', n.account, t.account.value);
    }
  }

  /** A node denotes one tree only. */
  lemma {:induction false} DenotesUnique(S: set<object>, n: Account, t: AccountTree, u: AccountTree)
    requires Denotes(S, n, t) && Denotes(S, n, u)
    ensures t == u
    decreases t
  {
    if t.parent.Some? {
      DenotesUnique(S, n.parent, t.parent.value, u.parent.value);
    }
    forall i | 0 <= i < |t.children| ensures t.children[i] == u.children[i] {
      DenotesUnique(S, n.children[i], t.children[i], u.children[i]);
    }
    forall i | 0 <= i < |t.accountGroups| ensures t.accountGroups[i] == u.accountGroups[i] {
      LinkDenotesUnique(S, n.accountGroups[i], t.accountGroups[i], u.accountGroups[i]);
    }
  }

  lemma {:induction false} LinkDenotesUnique(S: set<object>, n: AccountGroup, t: AccountGroupTree, u: AccountGroupTree)
    requires LinkDenotes(S, n, t) && LinkDenotes(S, n, u)
    ensures t == u
    decreases t
  {
    if t.account.Some? {
      DenotesUnique(S, n.account, t.account.value, u.account.value);
    }
  }
}
