/** What the stitched edge values denote, given what the neighbours denote. */
module Denotation {
  import opened Collections
  import opened Schema
  import opened QueryModel
  import opened Graph
  import opened Stitching

  ghost predicate AccountDenotes(S: set<object>, n: Account?, t: Option<AccountTree>)
    reads S
  {
    if n == null then t.None? else t.Some? && Denotes(S, n, t.value)
  }

  ghost predicate AccountsDenote(S: set<object>, ns: seq<Account?>, ts: seq<Option<AccountTree>>)
    reads S
  {
    |ns| == |ts| && forall i :: 0 <= i < |ns| ==> AccountDenotes(S, ns[i], ts[i])
  }

  ghost predicate ProxiesDenote(ns: seq<Proxy?>, rs: seq<Option<ProxyRow>>) {
    |ns| == |rs| && forall i :: 0 <= i < |ns| ==> ProxyDenotes(ns[i], rs[i])
  }

  ghost predicate LinkGroupsDenote(ns: seq<Group?>, rs: seq<Option<GroupRow>>) {
    |ns| == |rs| && forall i :: 0 <= i < |ns| ==> GroupDenotes(ns[i], rs[i])
  }

  ghost predicate ForestsDenote(S: set<object>, nss: seq<seq<Account>>, tss: seq<seq<AccountTree>>)
    reads S
  {
    |nss| == |tss| && forall i :: 0 <= i < |nss| ==> AllDenote(S, nss[i], tss[i])
  }

  ghost predicate LinkForestsDenote(S: set<object>, nss: seq<seq<AccountGroup>>, tss: seq<seq<AccountGroupTree>>)
    reads S
  {
    |nss| == |tss| && forall i :: 0 <= i < |nss| ==> AllLinksDenote(S, nss[i], tss[i])
  }

  ghost predicate GroupListsDenote(nss: seq<seq<Group>>, rss: seq<seq<GroupRow>>) {
    |nss| == |rss| && forall i :: 0 <= i < |nss| ==> GroupsDenote(nss[i], rss[i])
  }

  // Unique edges.

  lemma {:induction false} AssignedAccount(S: set<object>, was: seq<Account?>, keys: seq<Option<int>>, ids: seq<int>,
                                           neighbors: seq<Account>, rows: seq<AccountRow>, ts: seq<AccountTree>,
                                           upto: nat, i: nat)
    requires |keys| == |was| && upto <= |ids| == |neighbors| == |rows| == |ts| && i < |was|
    requires forall j :: 0 <= j < |ids| ==> ids[j] == rows[j].id
    requires AllDenote(S, neighbors, ts) && was[i] == null
    ensures AccountDenotes(S, AssignAll(was, keys, ids, neighbors, upto)[i],
      if keys[i].None? then None else PickLast(IDKeys(rows)[..upto], ts[..upto], keys[i].value))
  {
    hide Denotes;
    if upto > 0 {
      AssignedAccount(S, was, keys, ids, neighbors, rows, ts, upto - 1, i);
      assert IDKeys(rows)[..upto][..upto - 1] == IDKeys(rows)[..upto - 1] && ts[..upto][..upto - 1] == ts[..upto - 1];
    }
  }

  lemma {:induction false} AssignedProxy(was: seq<Proxy?>, keys: seq<Option<int>>, ids: seq<int>,
                                         neighbors: seq<Proxy>, rows: seq<ProxyRow>, upto: nat, i: nat)
    requires |keys| == |was| && upto <= |ids| == |neighbors| == |rows| && i < |was|
    requires forall j :: 0 <= j < |ids| ==> ids[j] == rows[j].id && neighbors[j].row == rows[j]
    requires was[i] == null
    ensures ProxyDenotes(AssignAll(was, keys, ids, neighbors, upto)[i],
      if keys[i].None? then None else PickLast(ProxyIDKeys(rows)[..upto], rows[..upto], keys[i].value))
  {
    if upto > 0 {
      AssignedProxy(was, keys, ids, neighbors, rows, upto - 1, i);
      assert ProxyIDKeys(rows)[..upto][..upto - 1] == ProxyIDKeys(rows)[..upto - 1];
      assert rows[..upto][..upto - 1] == rows[..upto - 1];
    }
  }

  lemma {:induction false} AssignedGroup(was: seq<Group?>, keys: seq<Option<int>>, ids: seq<int>,
                                         neighbors: seq<Group>, rows: seq<GroupRow>, upto: nat, i: nat)
    requires |keys| == |was| && upto <= |ids| == |neighbors| == |rows| && i < |was|
    requires forall j :: 0 <= j < |ids| ==> ids[j] == rows[j].id && neighbors[j].row == rows[j]
    requires was[i] == null
    ensures GroupDenotes(AssignAll(was, keys, ids, neighbors, upto)[i],
      if keys[i].None? then None else PickLast(GroupIDKeys(rows)[..upto], rows[..upto], keys[i].value))
  {
    if upto > 0 {
      AssignedGroup(was, keys, ids, neighbors, rows, upto - 1, i);
      assert GroupIDKeys(rows)[..upto][..upto - 1] == GroupIDKeys(rows)[..upto - 1];
      assert rows[..upto][..upto - 1] == rows[..upto - 1];
    }
  }

  // Plural edges.

  lemma {:induction false} AppendedChildren(S: set<object>, was: seq<seq<Account>>, ids: seq<int>,
                                            fks: seq<Option<int>>,
                                            neighbors: seq<Account>, ts: seq<AccountTree>, upto: nat, i: nat)
    requires |ids| == |was| && upto <= |fks| == |neighbors| && i < |was|
    requires AllDenote(S, neighbors, ts) && was[i] == []
    ensures AllDenote(S, AppendAll(was, ids, fks, neighbors, upto)[i],
      if LastHolder(ids, i) then Pick(fks[..upto], ts[..upto], ids[i]) else [])
  {
    hide Denotes;
    if upto > 0 {
      AppendedChildren(S, was, ids, fks, neighbors, ts, upto - 1, i);
      assert fks[..upto][..upto - 1] == fks[..upto - 1] && ts[..upto][..upto - 1] == ts[..upto - 1];
    }
  }

  lemma {:induction false} AppendedLinks(S: set<object>, was: seq<seq<AccountGroup>>, ids: seq<int>,
                                         fks: seq<Option<int>>,
                                         neighbors: seq<AccountGroup>, ts: seq<AccountGroupTree>, upto: nat, i: nat)
    requires |ids| == |was| && upto <= |fks| == |neighbors| && i < |was|
    requires AllLinksDenote(S, neighbors, ts) && was[i] == []
    ensures AllLinksDenote(S, AppendAll(was, ids, fks, neighbors, upto)[i],
      if LastHolder(ids, i) then Pick(fks[..upto], ts[..upto], ids[i]) else [])
  {
    hide LinkDenotes;
    if upto > 0 {
      AppendedLinks(S, was, ids, fks, neighbors, ts, upto - 1, i);
      assert fks[..upto][..upto - 1] == fks[..upto - 1] && ts[..upto][..upto - 1] == ts[..upto - 1];
    }
  }

  // The many-to-many edge.

  lemma {:induction false} JoinedToMember(stream: seq<JoinRow>, byID: map<int, Account>, g: int, upto: nat, a: Account?)
    requires upto <= |stream|
    ensures a in JoinedTo(stream, byID, g, upto)
       <==> exists j :: 0 <= j < upto && stream[j].group.id == g && Find(byID, stream[j].accountID) == a
  {
    if upto > 0 {
      JoinedToMember(stream, byID, g, upto - 1, a);
    }
  }

  /** A node is joined to a group iff it is the last with its identifier and the stream says so. */
  lemma {:induction false} JoinedToNode(stream: seq<JoinRow>, byID: map<int, Account>, nodes: seq<Account>,
                                        ids: seq<int>, g: int, i: nat)
    requires |ids| == |nodes| && i < |nodes| && Distinct(nodes) && LastIndexes(byID, nodes, ids)
    requires forall j :: j in stream ==> j.accountID in ids
    ensures nodes[i] in JoinedTo(stream, byID, g, |stream|) <==> LastHolder(ids, i) && Joins(stream, ids[i], g)
  {
    JoinedToMember(stream, byID, g, |stream|, nodes[i]);
    if nodes[i] in JoinedTo(stream, byID, g, |stream|) {
      var j :| 0 <= j < |stream| && stream[j].group.id == g && Find(byID, stream[j].accountID) == nodes[i];
      assert stream[j] in stream;
      OwnerOf(byID, nodes, ids, stream[j].accountID);
    }
    if LastHolder(ids, i) && Joins(stream, ids[i], g) {
      var r :| r in stream && r.accountID == ids[i] && r.group.id == g;
      var j :| 0 <= j < |stream| && stream[j] == r;
      OwnerOf(byID, nodes, ids, ids[i]);
    }
  }

  /** Nobody but loaded accounts is joined: the lookup by identifier never misses. */
  lemma {:induction false} JoinedToWithin(stream: seq<JoinRow>, byID: map<int, Account>, nodes: seq<Account>,
                                          ids: seq<int>, g: int)
    requires |ids| == |nodes| && Distinct(nodes) && LastIndexes(byID, nodes, ids)
    requires forall j :: j in stream ==> j.accountID in ids
    ensures Within(JoinedTo(stream, byID, g, |stream|), nodes)
  {
    forall a | a in JoinedTo(stream, byID, g, |stream|) ensures a != null && a in nodes {
      JoinedToMember(stream, byID, g, |stream|, a);
      var j :| 0 <= j < |stream| && stream[j].group.id == g && Find(byID, stream[j].accountID) == a;
      assert stream[j] in stream;
      OwnerOf(byID, nodes, ids, stream[j].accountID);
    }
  }

  lemma {:induction false} GivenGroups(
    was: seq<seq<Group>>, nodes: seq<Account>, nids: map<int, set<Account?>>, neighbors: seq<Group>,
    rows: seq<GroupRow>, upto: nat, i: nat, keep: GroupRow -> bool)
    requires |was| == |nodes| && upto <= |neighbors| == |rows| && i < |nodes| && was[i] == []
    requires forall j :: 0 <= j < |neighbors| ==> neighbors[j].row == rows[j] && rows[j].id in nids
    requires forall j :: 0 <= j < |neighbors| ==> (nodes[i] in nids[rows[j].id] <==> keep(rows[j]))
    ensures GroupsDenote(GiveAll(was, nodes, nids, neighbors, upto)[i], Filter(rows[..upto], keep))
  {
    hide Filter;
    if upto == 0 {
      FilterEmpty(rows[..0], keep);
    } else {
      GivenGroups(was, nodes, nids, neighbors, rows, upto - 1, i, keep);
      FilterAppend(rows[..upto - 1], rows[upto - 1], keep);
      assert rows[..upto] == rows[..upto - 1] + [rows[upto - 1]];
    }
  }
}
