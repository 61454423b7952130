/** The in-memory indexes of the loaders, and the loops that link neighbours to nodes. */
module Stitching {
  import opened Collections
  import opened Schema
  import opened QueryModel
  import opened Graph

  /** A map read: a key that is not there holds the empty list. */
  function FiledUnder<N>(nodeids: map<int, seq<N>>, k: int): seq<N> {
    if k in nodeids then nodeids[k] else []
  }

  /** `nodeids` files every node under its key, in order. */
  ghost predicate Indexes<N>(nodeids: map<int, seq<N>>, nodes: seq<N>, keys: seq<Option<int>>)
    requires |keys| == |nodes|
  {
    && (forall k :: k in nodeids <==> Some(k) in keys)
    && (forall k :: k in nodeids ==> nodeids[k] == Pick(keys, nodes, k))
  }

  lemma {:induction false} PickNone<N>(keys: seq<Option<int>>, nodes: seq<N>, k: int)
    requires |keys| == |nodes| && Some(k) !in keys
    ensures Pick(keys, nodes, k) == []
  {
    if keys != [] {
      var n := |keys| - 1;
      PickNone(keys[..n], nodes[..n], k);
    }
  }

  lemma {:induction false} IndexesNext<N>(nodeids: map<int, seq<N>>, nodes: seq<N>, keys: seq<Option<int>>, node: N,
                                          key: Option<int>)
    requires |keys| == |nodes| && Indexes(nodeids, nodes, keys)
    ensures Indexes(if key.None? then nodeids else nodeids[key.value := FiledUnder(nodeids, key.value) + [node]],
                    nodes + [node], keys + [key])
  {
    var next := if key.None? then nodeids else nodeids[key.value := FiledUnder(nodeids, key.value) + [node]];
    assert (keys + [key])[..|keys|] == keys && (nodes + [node])[..|nodes|] == nodes;
    forall k | k in next ensures next[k] == Pick(keys + [key], nodes + [node], k) {
      if k !in nodeids {
        PickNone(keys, nodes, k);
      }
    }
  }

  /** Many-to-one index: the distinct keys to ask for, and for each key the nodes that hold it. */
  method GroupByKey<N>(nodes: seq<N>, keys: seq<Option<int>>) returns (ids: seq<int>, nodeids: map<int, seq<N>>)
    requires |keys| == |nodes|
    ensures ids == DistinctKeys(keys)
    ensures Indexes(nodeids, nodes, keys)
  {
    ids, nodeids := [], map[];
    for i := 0 to |nodes|
      invariant ids == DistinctKeys(keys[..i])
      invariant Indexes(nodeids, nodes[..i], keys[..i])
    {
      IndexesNext(nodeids, nodes[..i], keys[..i], nodes[i], keys[i]);
      assert keys[..i + 1] == keys[..i] + [keys[i]] && nodes[..i + 1] == nodes[..i] + [nodes[i]];
      if keys[i].Some? {
        var fk := keys[i].value;
        if fk !in nodeids {
          ids := ids + [fk];
        }
        nodeids := nodeids[fk := FiledUnder(nodeids, fk) + [nodes[i]]];
      }
    }
    assert keys[..|keys|] == keys && nodes[..|nodes|] == nodes;
  }

  /** `nodeids` maps every identifier to the last node that holds it. */
  ghost predicate LastIndexes<N>(nodeids: map<int, N>, nodes: seq<N>, ids: seq<int>)
    requires |ids| == |nodes|
  {
    && (forall k :: k in nodeids <==> k in ids)
    && (forall k :: k in nodeids ==>
          exists i :: 0 <= i < |ids| && LastHolder(ids, i) && ids[i] == k && nodeids[k] == nodes[i])
  }

  /** One-to-many index: the last node that holds each identifier. */
  method IndexByID<N>(nodes: seq<N>, ids: seq<int>) returns (nodeids: map<int, N>)
    requires |ids| == |nodes|
    ensures LastIndexes(nodeids, nodes, ids)
  {
    nodeids := map[];
    for i := 0 to |nodes|
      invariant forall k :: k in nodeids <==> k in ids[..i]
      invariant forall k :: k in nodeids ==>
        exists j :: 0 <= j < i && ids[j] == k && nodeids[k] == nodes[j] && forall m :: j < m < i ==> ids[m] != k
    {
      nodeids := nodeids[ids[i] := nodes[i]];
      assert ids[..i + 1] == ids[..i] + [ids[i]];
    }
    assert ids[..|ids|] == ids;
    forall k | k in nodeids
      ensures exists i :: 0 <= i < |ids| && LastHolder(ids, i) && ids[i] == k && nodeids[k] == nodes[i]
    {
      var j :| 0 <= j < |ids| && ids[j] == k && nodeids[k] == nodes[j] && forall m :: j < m < |ids| ==> ids[m] != k;
      assert LastHolder(ids, j);
    }
  }

  ghost predicate Distinct<N>(nodes: seq<N>) {
    forall i, j :: 0 <= i < j < |nodes| ==> nodes[i] != nodes[j]
  }

  lemma {:induction false} PickMember<N>(nodes: seq<N>, keys: seq<Option<int>>, k: int, i: nat)
    requires |keys| == |nodes| && i < |nodes| && Distinct(nodes)
    ensures nodes[i] in Pick(keys, nodes, k) <==> keys[i] == Some(k)
  {
    var n := |nodes| - 1;
    if i < n {
      PickMember(nodes[..n], keys[..n], k, i);
    } else {
      assert nodes[n] !in nodes[..n];
    }
  }

  lemma {:induction false} HoldersOf<N>(nodeids: map<int, seq<N>>, nodes: seq<N>, keys: seq<Option<int>>, k: int)
    requires |keys| == |nodes| && Distinct(nodes) && Indexes(nodeids, nodes, keys) && k in nodeids
    ensures forall n :: n in nodeids[k] ==> n in nodes
    ensures forall i :: 0 <= i < |nodes| ==> (nodes[i] in nodeids[k] <==> keys[i] == Some(k))
  {
    forall i | 0 <= i < |nodes| ensures nodes[i] in nodeids[k] <==> keys[i] == Some(k) {
      PickMember(nodes, keys, k, i);
    }
  }

  // What assigning and appending neighbours in order does to the list of edge values of the nodes.

  ghost function AssignOne<T>(was: seq<T>, keys: seq<Option<int>>, id: int, neighbor: T): (r: seq<T>)
    requires |keys| == |was|
    ensures |r| == |was|
  {
    seq(|was|, i requires 0 <= i < |was| => if keys[i] == Some(id) then neighbor else was[i])
  }

  ghost function AssignAll<T>(was: seq<T>, keys: seq<Option<int>>, ids: seq<int>, neighbors: seq<T>, upto: nat)
    : (r: seq<T>)
    requires |keys| == |was| && upto <= |ids| == |neighbors|
    ensures |r| == |was|
  {
    if upto == 0 then was
    else AssignOne(AssignAll(was, keys, ids, neighbors, upto - 1), keys, ids[upto - 1], neighbors[upto - 1])
  }

  /** Only the last node with an identifier receives the neighbours that name it. */
  ghost function AppendOne<T>(was: seq<seq<T>>, ids: seq<int>, fk: Option<int>, neighbor: T): (r: seq<seq<T>>)
    requires |ids| == |was|
    ensures |r| == |was|
  {
    seq(|was|, i requires 0 <= i < |was| =>
      if LastHolder(ids, i) && fk == Some(ids[i]) then was[i] + [neighbor] else was[i])
  }

  ghost function AppendAll<T>(was: seq<seq<T>>, ids: seq<int>, fks: seq<Option<int>>, neighbors: seq<T>, upto: nat)
    : (r: seq<seq<T>>)
    requires |ids| == |was| && upto <= |fks| == |neighbors|
    ensures |r| == |was|
  {
    if upto == 0 then was
    else AppendOne(AppendAll(was, ids, fks, neighbors, upto - 1), ids, fks[upto - 1], neighbors[upto - 1])
  }

  function IDsOf(ns: seq<Account>): (ids: seq<int>)
    ensures |ids| == |ns|
  {
    seq(|ns|, i requires 0 <= i < |ns| => ns[i].row.id)
  }

  function ProxyIDsOf(ns: seq<Proxy>): (ids: seq<int>)
    ensures |ids| == |ns|
  {
    seq(|ns|, i requires 0 <= i < |ns| => ns[i].row.id)
  }

  function GroupIDsOf(ns: seq<Group>): (ids: seq<int>)
    ensures |ids| == |ns|
  {
    seq(|ns|, i requires 0 <= i < |ns| => ns[i].row.id)
  }

  function ParentKeysOf(ns: seq<Account>): (keys: seq<Option<int>>)
    ensures |keys| == |ns|
  {
    seq(|ns|, i requires 0 <= i < |ns| => ns[i].row.parentAccountID)
  }

  function ProxyKeysOf(ns: seq<Account>): (keys: seq<Option<int>>)
    ensures |keys| == |ns|
  {
    seq(|ns|, i requires 0 <= i < |ns| => ns[i].row.proxyID)
  }

  function LinkGroupKeysOf(ns: seq<AccountGroup>): (keys: seq<Option<int>>)
    ensures |keys| == |ns|
  {
    seq(|ns|, i requires 0 <= i < |ns| => Some(ns[i].row.groupID))
  }

  function LinkAccountKeysOf(ns: seq<AccountGroup>): (keys: seq<Option<int>>)
    ensures |keys| == |ns|
  {
    seq(|ns|, i requires 0 <= i < |ns| => Some(ns[i].row.accountID))
  }

  // The edge values of a list of nodes.

  ghost function HeldParents(nodes: seq<Account>): (r: seq<Account?>)
    reads (set n | n in nodes)`parent
    ensures |r| == |nodes| && forall i :: 0 <= i < |nodes| ==> r[i] == nodes[i].parent
  {
    if nodes == [] then [] else HeldParents(nodes[..|nodes| - 1]) + [nodes[|nodes| - 1].parent]
  }

  ghost function HeldProxies(nodes: seq<Account>): (r: seq<Proxy?>)
    reads (set n | n in nodes)`proxy
    ensures |r| == |nodes| && forall i :: 0 <= i < |nodes| ==> r[i] == nodes[i].proxy
  {
    if nodes == [] then [] else HeldProxies(nodes[..|nodes| - 1]) + [nodes[|nodes| - 1].proxy]
  }

  ghost function HeldChildren(nodes: seq<Account>): (r: seq<seq<Account>>)
    reads (set n | n in nodes)`children
    ensures |r| == |nodes| && forall i :: 0 <= i < |nodes| ==> r[i] == nodes[i].children
  {
    if nodes == [] then [] else HeldChildren(nodes[..|nodes| - 1]) + [nodes[|nodes| - 1].children]
  }

  ghost function HeldGroups(nodes: seq<Account>): (r: seq<seq<Group>>)
    reads (set n | n in nodes)`groups
    ensures |r| == |nodes| && forall i :: 0 <= i < |nodes| ==> r[i] == nodes[i].groups
  {
    if nodes == [] then [] else HeldGroups(nodes[..|nodes| - 1]) + [nodes[|nodes| - 1].groups]
  }

  ghost function HeldAccountGroups(nodes: seq<Account>): (r: seq<seq<AccountGroup>>)
    reads (set n | n in nodes)`accountGroups
    ensures |r| == |nodes| && forall i :: 0 <= i < |nodes| ==> r[i] == nodes[i].accountGroups
  {
    if nodes == [] then [] else HeldAccountGroups(nodes[..|nodes| - 1]) + [nodes[|nodes| - 1].accountGroups]
  }

  ghost function HeldLinkAccounts(nodes: seq<AccountGroup>): (r: seq<Account?>)
    reads (set n | n in nodes)`account
    ensures |r| == |nodes| && forall i :: 0 <= i < |nodes| ==> r[i] == nodes[i].account
  {
    if nodes == [] then [] else HeldLinkAccounts(nodes[..|nodes| - 1]) + [nodes[|nodes| - 1].account]
  }

  ghost function HeldLinkGroups(nodes: seq<AccountGroup>): (r: seq<Group?>)
    reads (set n | n in nodes)`group
    ensures |r| == |nodes| && forall i :: 0 <= i < |nodes| ==> r[i] == nodes[i].group
  {
    if nodes == [] then [] else HeldLinkGroups(nodes[..|nodes| - 1]) + [nodes[|nodes| - 1].group]
  }

  // Many-to-one: each neighbour is assigned to every node filed under its identifier, and the loop
  // stops at the first neighbour that nobody asked for.

  method AssignParent(nodes: seq<Account>, ghost keys: seq<Option<int>>, nodeids: map<int, seq<Account>>,
                      parent: Account)
    requires |keys| == |nodes| && Distinct(nodes) && Indexes(nodeids, nodes, keys)
    requires parent.row.id in nodeids
    modifies (set n | n in nodes)`parent
    ensures HeldParents(nodes) == AssignOne(old(HeldParents(nodes)), keys, parent.row.id, parent)
  {
    HoldersOf(nodeids, nodes, keys, parent.row.id);
    hide HeldParents, Pick, Distinct, Indexes;
    var holders := nodeids[parent.row.id];
    for k := 0 to |holders|
      invariant forall n :: n in nodes ==> n.parent == if n in holders[..k] then parent else old(n.parent)
    {
      holders[k].parent := parent;
    }
    assert holders[..|holders|] == holders;
  }

  method StitchParent(nodes: seq<Account>, ghost keys: seq<Option<int>>, nodeids: map<int, seq<Account>>,
                  neighbors: seq<Account>) returns (ok: bool, ghost upto: nat)
    requires |keys| == |nodes| && Distinct(nodes) && Indexes(nodeids, nodes, keys)
    modifies (set n | n in nodes)`parent
    ensures upto <= |neighbors| && (ok <==> upto == |neighbors|)
    ensures forall j :: 0 <= j < upto ==> neighbors[j].row.id in nodeids
    ensures !ok ==> neighbors[upto].row.id !in nodeids
    ensures HeldParents(nodes) == AssignAll(old(HeldParents(nodes)), keys, IDsOf(neighbors), neighbors, upto)
  {
    hide Distinct, Indexes, AssignOne;
    upto := 0;
    for j := 0 to |neighbors|
      invariant upto == j
      invariant forall m :: 0 <= m < j ==> neighbors[m].row.id in nodeids
      invariant HeldParents(nodes) == AssignAll(old(HeldParents(nodes)), keys, IDsOf(neighbors), neighbors, j)
    {
      if neighbors[j].row.id !in nodeids {
        return false, j;
      }
      AssignParent(nodes, keys, nodeids, neighbors[j]);
      upto := j + 1;
    }
    return true, |neighbors|;
  }

  method AssignProxy(nodes: seq<Account>, ghost keys: seq<Option<int>>, nodeids: map<int, seq<Account>>, proxy: Proxy)
    requires |keys| == |nodes| && Distinct(nodes) && Indexes(nodeids, nodes, keys)
    requires proxy.row.id in nodeids
    modifies (set n | n in nodes)`proxy
    ensures HeldProxies(nodes) == AssignOne(old(HeldProxies(nodes)), keys, proxy.row.id, proxy)
  {
    HoldersOf(nodeids, nodes, keys, proxy.row.id);
    hide HeldProxies, Pick, Distinct, Indexes;
    var holders := nodeids[proxy.row.id];
    for k := 0 to |holders|
      invariant forall n :: n in nodes ==> n.proxy == if n in holders[..k] then proxy else old(n.proxy)
    {
      holders[k].proxy := proxy;
    }
    assert holders[..|holders|] == holders;
  }

  method StitchProxy(nodes: seq<Account>, ghost keys: seq<Option<int>>, nodeids: map<int, seq<Account>>,
                  neighbors: seq<Proxy>) returns (ok: bool, ghost upto: nat)
    requires |keys| == |nodes| && Distinct(nodes) && Indexes(nodeids, nodes, keys)
    modifies (set n | n in nodes)`proxy
    ensures upto <= |neighbors| && (ok <==> upto == |neighbors|)
    ensures forall j :: 0 <= j < upto ==> neighbors[j].row.id in nodeids
    ensures !ok ==> neighbors[upto].row.id !in nodeids
    ensures HeldProxies(nodes) == AssignAll(old(HeldProxies(nodes)), keys, ProxyIDsOf(neighbors), neighbors, upto)
  {
    hide Distinct, Indexes, AssignOne;
    upto := 0;
    for j := 0 to |neighbors|
      invariant upto == j
      invariant forall m :: 0 <= m < j ==> neighbors[m].row.id in nodeids
      invariant HeldProxies(nodes) == AssignAll(old(HeldProxies(nodes)), keys, ProxyIDsOf(neighbors), neighbors, j)
    {
      if neighbors[j].row.id !in nodeids {
        return false, j;
      }
      AssignProxy(nodes, keys, nodeids, neighbors[j]);
      upto := j + 1;
    }
    return true, |neighbors|;
  }

  method AssignLinkAccount(nodes: seq<AccountGroup>, ghost keys: seq<Option<int>>, nodeids: map<int,
                           seq<AccountGroup>>, account: Account)
    requires |keys| == |nodes| && Distinct(nodes) && Indexes(nodeids, nodes, keys)
    requires account.row.id in nodeids
    modifies (set n | n in nodes)`account
    ensures HeldLinkAccounts(nodes) == AssignOne(old(HeldLinkAccounts(nodes)), keys, account.row.id, account)
  {
    HoldersOf(nodeids, nodes, keys, account.row.id);
    hide HeldLinkAccounts, Pick, Distinct, Indexes;
    var holders := nodeids[account.row.id];
    for k := 0 to |holders|
      invariant forall n :: n in nodes ==> n.account == if n in holders[..k] then account else old(n.account)
    {
      holders[k].account := account;
    }
    assert holders[..|holders|] == holders;
  }

  method StitchLinkAccount(nodes: seq<AccountGroup>, ghost keys: seq<Option<int>>, nodeids: map<int, seq<AccountGroup>>,
                  neighbors: seq<Account>) returns (ok: bool, ghost upto: nat)
    requires |keys| == |nodes| && Distinct(nodes) && Indexes(nodeids, nodes, keys)
    modifies (set n | n in nodes)`account
    ensures upto <= |neighbors| && (ok <==> upto == |neighbors|)
    ensures forall j :: 0 <= j < upto ==> neighbors[j].row.id in nodeids
    ensures !ok ==> neighbors[upto].row.id !in nodeids
    ensures HeldLinkAccounts(nodes) == AssignAll(old(HeldLinkAccounts(nodes)), keys, IDsOf(neighbors), neighbors, upto)
  {
    hide Distinct, Indexes, AssignOne;
    upto := 0;
    for j := 0 to |neighbors|
      invariant upto == j
      invariant forall m :: 0 <= m < j ==> neighbors[m].row.id in nodeids
      invariant HeldLinkAccounts(nodes) == AssignAll(old(HeldLinkAccounts(nodes)), keys, IDsOf(neighbors), neighbors, j)
    {
      if neighbors[j].row.id !in nodeids {
        return false, j;
      }
      AssignLinkAccount(nodes, keys, nodeids, neighbors[j]);
      upto := j + 1;
    }
    return true, |neighbors|;
  }

  method AssignLinkGroup(nodes: seq<AccountGroup>, ghost keys: seq<Option<int>>, nodeids: map<int, seq<AccountGroup>>,
                         group: Group)
    requires |keys| == |nodes| && Distinct(nodes) && Indexes(nodeids, nodes, keys)
    requires group.row.id in nodeids
    modifies (set n | n in nodes)`group
    ensures HeldLinkGroups(nodes) == AssignOne(old(HeldLinkGroups(nodes)), keys, group.row.id, group)
  {
    HoldersOf(nodeids, nodes, keys, group.row.id);
    hide HeldLinkGroups, Pick, Distinct, Indexes;
    var holders := nodeids[group.row.id];
    for k := 0 to |holders|
      invariant forall n :: n in nodes ==> n.group == if n in holders[..k] then group else old(n.group)
    {
      holders[k].group := group;
    }
    assert holders[..|holders|] == holders;
  }

  method StitchLinkGroup(nodes: seq<AccountGroup>, ghost keys: seq<Option<int>>, nodeids: map<int, seq<AccountGroup>>,
                  neighbors: seq<Group>) returns (ok: bool, ghost upto: nat)
    requires |keys| == |nodes| && Distinct(nodes) && Indexes(nodeids, nodes, keys)
    modifies (set n | n in nodes)`group
    ensures upto <= |neighbors| && (ok <==> upto == |neighbors|)
    ensures forall j :: 0 <= j < upto ==> neighbors[j].row.id in nodeids
    ensures !ok ==> neighbors[upto].row.id !in nodeids
    ensures HeldLinkGroups(nodes) == AssignAll(old(HeldLinkGroups(nodes)), keys, GroupIDsOf(neighbors), neighbors, upto)
  {
    hide Distinct, Indexes, AssignOne;
    upto := 0;
    for j := 0 to |neighbors|
      invariant upto == j
      invariant forall m :: 0 <= m < j ==> neighbors[m].row.id in nodeids
      invariant HeldLinkGroups(nodes)
             == AssignAll(old(HeldLinkGroups(nodes)), keys, GroupIDsOf(neighbors), neighbors, j)
    {
      if neighbors[j].row.id !in nodeids {
        return false, j;
      }
      AssignLinkGroup(nodes, keys, nodeids, neighbors[j]);
      upto := j + 1;
    }
    return true, |neighbors|;
  }

  // One-to-many: each neighbour is appended to the one node its foreign key names.

  predicate Known<N>(key: Option<int>, nodeids: map<int, N>) {
    key.Some? && key.value in nodeids
  }

  lemma {:induction false} OwnerOf<N>(nodeids: map<int, N>, nodes: seq<N>, ids: seq<int>, k: int)
    requires |ids| == |nodes| && Distinct(nodes) && LastIndexes(nodeids, nodes, ids) && k in nodeids
    ensures nodeids[k] in nodes
    ensures forall i :: 0 <= i < |nodes| ==> (nodes[i] == nodeids[k] <==> LastHolder(ids, i) && ids[i] == k)
  {
  }

  method AppendChildren(nodes: seq<Account>, ghost ids: seq<int>, nodeids: map<int, Account>, fk: int,
                        neighbor: Account)
    requires |ids| == |nodes| && Distinct(nodes) && LastIndexes(nodeids, nodes, ids) && fk in nodeids
    modifies (set n | n in nodes)`children
    ensures HeldChildren(nodes) == AppendOne(old(HeldChildren(nodes)), ids, Some(fk), neighbor)
  {
    OwnerOf(nodeids, nodes, ids, fk);
    var node := nodeids[fk];
    node.children := node.children + [neighbor];
  }

  method StitchChildren(nodes: seq<Account>, ghost ids: seq<int>, nodeids: map<int, Account>, neighbors: seq<Account>)
    returns (ok: bool, ghost upto: nat)
    requires |ids| == |nodes| && Distinct(nodes) && LastIndexes(nodeids, nodes, ids)
    modifies (set n | n in nodes)`children
    ensures upto <= |neighbors| && (ok <==> upto == |neighbors|)
    ensures forall j :: 0 <= j < upto ==> Known(ParentKeysOf(neighbors)[j], nodeids)
    ensures !ok ==> !Known(ParentKeysOf(neighbors)[upto], nodeids)
    ensures HeldChildren(nodes) == AppendAll(old(HeldChildren(nodes)), ids, ParentKeysOf(neighbors), neighbors, upto)
  {
    hide Distinct, LastIndexes, AppendOne, HeldChildren, ParentKeysOf;
    upto := 0;
    var fks := ParentKeysOf(neighbors);
    for j := 0 to |neighbors|
      invariant upto == j
      invariant forall m :: 0 <= m < j ==> Known(fks[m], nodeids)
      invariant HeldChildren(nodes) == AppendAll(old(HeldChildren(nodes)), ids, fks, neighbors, j)
    {
      if fks[j].None? || fks[j].value !in nodeids {
        return false, j;
      }
      AppendChildren(nodes, ids, nodeids, fks[j].value, neighbors[j]);
      upto := j + 1;
    }
    return true, |neighbors|;
  }

  method AppendAccountGroups(nodes: seq<Account>, ghost ids: seq<int>, nodeids: map<int, Account>, fk: int,
                             neighbor: AccountGroup)
    requires |ids| == |nodes| && Distinct(nodes) && LastIndexes(nodeids, nodes, ids) && fk in nodeids
    modifies (set n | n in nodes)`accountGroups
    ensures HeldAccountGroups(nodes) == AppendOne(old(HeldAccountGroups(nodes)), ids, Some(fk), neighbor)
  {
    OwnerOf(nodeids, nodes, ids, fk);
    var node := nodeids[fk];
    node.accountGroups := node.accountGroups + [neighbor];
  }

  method StitchAccountGroups(nodes: seq<Account>, ghost ids: seq<int>, nodeids: map<int, Account>,
                             neighbors: seq<AccountGroup>)
    returns (ok: bool, ghost upto: nat)
    requires |ids| == |nodes| && Distinct(nodes) && LastIndexes(nodeids, nodes, ids)
    modifies (set n | n in nodes)`accountGroups
    ensures upto <= |neighbors| && (ok <==> upto == |neighbors|)
    ensures forall j :: 0 <= j < upto ==> Known(LinkAccountKeysOf(neighbors)[j], nodeids)
    ensures !ok ==> !Known(LinkAccountKeysOf(neighbors)[upto], nodeids)
    ensures HeldAccountGroups(nodes) == AppendAll(old(HeldAccountGroups(nodes)), ids, LinkAccountKeysOf(neighbors),
                                                  neighbors, upto)
  {
    hide Distinct, LastIndexes, AppendOne, HeldAccountGroups, LinkAccountKeysOf;
    upto := 0;
    var fks := LinkAccountKeysOf(neighbors);
    for j := 0 to |neighbors|
      invariant upto == j
      invariant forall m :: 0 <= m < j ==> Known(fks[m], nodeids)
      invariant HeldAccountGroups(nodes) == AppendAll(old(HeldAccountGroups(nodes)), ids, fks, neighbors, j)
    {
      if fks[j].None? || fks[j].value !in nodeids {
        return false, j;
      }
      AppendAccountGroups(nodes, ids, nodeids, fks[j].value, neighbors[j]);
      upto := j + 1;
    }
    return true, |neighbors|;
  }

  // Many-to-many: the join stream is scanned once into group nodes and, for each group, the set of
  // accounts it is joined to; then every group is appended to its accounts in whatever order the
  // set yields them.

  function Find(byID: map<int, Account>, id: int): Account? {
    if id in byID then byID[id] else null
  }

  /** The accounts the first `upto` rows of the stream join to group `g`. */
  ghost function JoinedTo(stream: seq<JoinRow>, byID: map<int, Account>, g: int, upto: nat): set<Account?>
    requires upto <= |stream|
  {
    if upto == 0 then {}
    else
      JoinedTo(stream, byID, g, upto - 1)
      + (if stream[upto - 1].group.id == g then {Find(byID, stream[upto - 1].accountID)} else {})
  }

  method ScanJoin(stream: seq<JoinRow>, byID: map<int, Account>)
    returns (neighbors: seq<Group>, nids: map<int, set<Account?>>)
    ensures GroupsDenote(neighbors, GroupNodes(stream))
    ensures forall g :: g in nids <==> Holds(GroupNodes(stream), g)
    ensures forall g :: g in nids ==> nids[g] == JoinedTo(stream, byID, g, |stream|)
  {
    neighbors, nids := [], map[];
    for i := 0 to |stream|
      invariant GroupsDenote(neighbors, GroupNodes(stream[..i]))
      invariant forall g :: g in nids <==> Holds(GroupNodes(stream[..i]), g)
      invariant forall g :: JoinedTo(stream, byID, g, i) == if g in nids then nids[g] else {}
    {
      var outValue, inValue := stream[i].accountID, stream[i].group.id;
      assert stream[..i + 1][..i] == stream[..i];
      HoldsAfter(GroupNodes(stream[..i]), stream[i].group);
      if inValue !in nids {
        nids := nids[inValue := {Find(byID, outValue)}];
        var node := new Group(stream[i].group);
        neighbors := neighbors + [node];
      } else {
        nids := nids[inValue := nids[inValue] + {Find(byID, outValue)}];
      }
    }
    assert stream[..|stream|] == stream;
  }

  ghost function GiveOne(was: seq<seq<Group>>, nodes: seq<Account>, holders: set<Account?>,
                         g: Group): (r: seq<seq<Group>>)
    requires |was| == |nodes|
    ensures |r| == |was|
  {
    seq(|was|, i requires 0 <= i < |was| => if nodes[i] in holders then was[i] + [g] else was[i])
  }

  ghost function GiveAll(was: seq<seq<Group>>, nodes: seq<Account>, nids: map<int, set<Account?>>,
                         neighbors: seq<Group>, upto: nat): (r: seq<seq<Group>>)
    requires |was| == |nodes| && upto <= |neighbors|
    requires forall j :: 0 <= j < upto ==> neighbors[j].row.id in nids
    ensures |r| == |was|
  {
    if upto == 0 then was
    else GiveOne(GiveAll(was, nodes, nids, neighbors, upto - 1), nodes, nids[neighbors[upto - 1].row.id],
                 neighbors[upto - 1])
  }

  ghost predicate Within(holders: set<Account?>, nodes: seq<Account>) {
    forall a :: a in holders ==> a != null && a in nodes
  }

  method GiveGroup(nodes: seq<Account>, holders: set<Account?>, g: Group)
    requires Distinct(nodes)
    requires Within(holders, nodes)
    modifies (set n | n in nodes)`groups
    ensures HeldGroups(nodes) == GiveOne(old(HeldGroups(nodes)), nodes, holders, g)
  {
    var rest: set<Account?> := holders;
    while rest != {}
      invariant rest <= holders
      invariant forall n :: n in nodes ==>
        n.groups == if n in holders && n !in rest then old(n.groups) + [g] else old(n.groups)
    {
      var kn: Account? :| kn in rest;
      kn.groups := kn.groups + [g];
      rest := rest - {kn};
    }
  }

  /** Whatever order the sets are iterated in, the resulting lists are those of GiveAll. */
  method StitchGroups(nodes: seq<Account>, nids: map<int, set<Account?>>, neighbors: seq<Group>)
    returns (ok: bool, ghost upto: nat)
    requires Distinct(nodes)
    requires forall g :: g in nids ==> Within(nids[g], nodes)
    modifies (set n | n in nodes)`groups
    ensures upto <= |neighbors| && (ok <==> upto == |neighbors|)
    ensures forall j :: 0 <= j < upto ==> neighbors[j].row.id in nids
    ensures !ok ==> neighbors[upto].row.id !in nids
    ensures HeldGroups(nodes) == GiveAll(old(HeldGroups(nodes)), nodes, nids, neighbors, upto)
  {
    hide Distinct, GiveOne;
    upto := 0;
    for j := 0 to |neighbors|
      invariant upto == j
      invariant forall m :: 0 <= m < j ==> neighbors[m].row.id in nids
      invariant HeldGroups(nodes) == GiveAll(old(HeldGroups(nodes)), nodes, nids, neighbors, j)
    {
      if neighbors[j].row.id !in nids {
        return false, j;
      }
      GiveGroup(nodes, nids[neighbors[j].row.id], neighbors[j]);
      upto := j + 1;
    }
    return true, |neighbors|;
  }
}
