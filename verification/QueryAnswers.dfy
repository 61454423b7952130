/** The rows and columns of query results, said of the tables and the clauses of the query alone. */
module QueryAnswers {
  import opened Collections
  import opened Selections
  import opened Schema
  import opened QueryModel
  import opened JoinTheorem

  // ---- What the clauses ask of one row ----

  ghost predicate MeetsOne(p: AccountPredicate, r: AccountRow) {
    && (p.AccountIDIn? ==> r.id in p.ids)
    && (p.ParentIn? ==> exists k :: k in p.ids && r.parentAccountID == Some(k))
    && (p.AccountWhere? ==> p.holds(r))
  }

  ghost predicate Meets(ps: seq<AccountPredicate>, r: AccountRow) {
    forall i :: 0 <= i < |ps| ==> MeetsOne(ps[i], r)
  }

  ghost predicate GroupMeets(ps: seq<GroupPredicate>, r: GroupRow) {
    forall i :: 0 <= i < |ps| ==>
      (ps[i].GroupIDIn? ==> r.id in ps[i].ids) && (ps[i].GroupWhere? ==> ps[i].holds(r))
  }

  ghost predicate ProxyMeets(ps: seq<ProxyPredicate>, r: ProxyRow) {
    forall i :: 0 <= i < |ps| ==>
      (ps[i].ProxyIDIn? ==> r.id in ps[i].ids) && (ps[i].ProxyWhere? ==> ps[i].holds(r))
  }

  ghost predicate LinkMeets(ps: seq<AccountGroupPredicate>, r: AccountGroupRow) {
    forall i :: 0 <= i < |ps| ==>
      && (ps[i].AccountGroupAccountIn? ==> r.accountID in ps[i].ids)
      && (ps[i].AccountGroupWhere? ==> ps[i].holds(r))
  }

  /** The conjunctions the query model uses are these. */
  lemma {:induction false} HoldIsMeets()
    ensures forall ps, r :: AllHold(ps, r) <==> Meets(ps, r)
    ensures forall ps, r :: AllProxyHold(ps, r) <==> ProxyMeets(ps, r)
    ensures forall ps, r :: AllGroupHold(ps, r) <==> GroupMeets(ps, r)
    ensures forall ps, r :: AllAccountGroupHold(ps, r) <==> LinkMeets(ps, r)
  {
    forall ps: seq<AccountPredicate>, r: AccountRow ensures AllHold(ps, r) <==> Meets(ps, r) {
      hide *;
      HoldIsMeetsFor(ps, r);
    }
  }

  lemma {:induction false} HoldIsMeetsFor(ps: seq<AccountPredicate>, r: AccountRow)
    ensures AllHold(ps, r) <==> Meets(ps, r)
  {
    forall i | 0 <= i < |ps| ensures ps[i].Holds(r) <==> MeetsOne(ps[i], r) {
      HoldsIsMeets(ps[i], r);
    }
  }

  lemma {:induction false} HoldsIsMeets(p: AccountPredicate, r: AccountRow)
    ensures p.Holds(r) <==> MeetsOne(p, r)
  {
    if p.ParentIn? && p.Holds(r) {
      var k := r.parentAccountID.value;
      assert k in p.ids && r.parentAccountID == Some(k);
      assert MeetsOne(p, r);
    }
    if p.ParentIn? && MeetsOne(p, r) {
      var k :| k in p.ids && r.parentAccountID == Some(k);
      assert r.parentAccountID.value in p.ids;
      assert p.Holds(r);
    }
    if p.AccountIDIn? {
      assert p.Holds(r) <==> MeetsOne(p, r);
    }
    if p.AccountWhere? {
      assert p.Holds(r) <==> MeetsOne(p, r);
    }
  }

  // ---- What one node shows of its row ----

  /**
   * A decoded node has the identifier, each foreign key that was selected or that a requested edge
   * needs, and of the other columns those selected; no selection means all of them.
   */
  ghost predicate Shows(fields: seq<Column>, proxy: bool, parent: bool, r: AccountRow, shown: AccountRow) {
    && shown.id == r.id
    && shown.proxyID == (if fields == [] || ProxyID in fields || proxy then r.proxyID else None)
    && shown.parentAccountID
       == (if fields == [] || ParentAccountID in fields || parent then r.parentAccountID else None)
    && (forall k :: k in shown.attributes <==> k in r.attributes && (fields == [] || Attribute(k) in fields))
    && (forall k :: k in shown.attributes ==> shown.attributes[k] == r.attributes[k])
  }

  lemma {:induction false} ShownExactly(fields: seq<Column>, e: AccountEdges, r: AccountRow, shown: AccountRow)
    ensures shown == ProjectAccount(r, ColumnsOf(fields, e))
       <==> Shows(fields, e.withProxy.Some?, e.withParent.Some?, r, shown)
  {
  }

  lemma {:induction false} WithForeignKey<C>(fields: seq<C>, key: C)
    ensures AppendFieldOnce(fields, key) == [] <==> fields == []
    ensures fields != [] ==>
      forall c :: c in AppendFieldOnce(fields, key) <==> c in fields || c == key
  {
  }

  /** Children are read with their foreign key, selected or not. */
  lemma {:induction false} ShownChild(q: AccountQ, ids: seq<int>, r: AccountRow, shown: AccountRow)
    ensures shown == ProjectAccount(r, ColumnsOf(OfParents(q, ids).fields, q.edges))
       <==> Shows(q.fields, q.edges.withProxy.Some?, true, r, shown)
  {
    hide ProjectAccount, ColumnsOf, AppendFieldOnce;
    var fields, proxy, parent := OfParents(q, ids).fields, q.edges.withProxy.Some?, q.edges.withParent.Some?;
    assert fields == AppendFieldOnce(q.fields, ParentAccountID);
    WithForeignKey(q.fields, ParentAccountID);
    ShownExactly(fields, q.edges, r, shown);
    assert Shows(fields, proxy, parent, r, shown) <==> Shows(q.fields, proxy, true, r, shown);
  }

  ghost predicate ShowsLink(
    fields: seq<AccountGroupColumn>, group: bool, r: AccountGroupRow, shown: AccountGroupRow)
  {
    && shown.accountID == r.accountID
    && shown.groupID == (if fields == [] || GroupID in fields || group then r.groupID else 0)
    && shown.priority == (if fields == [] || Priority in fields then r.priority else 0)
  }

  lemma {:induction false} ShownLink(q: AccountGroupQ, ids: seq<int>, r: AccountGroupRow, shown: AccountGroupRow)
    ensures shown == ProjectAccountGroup(r, LinkColumnsOf(OfAccounts(q, ids).fields, q.edges))
       <==> ShowsLink(q.fields, q.edges.withGroup.Some?, r, shown)
  {
    var fields := OfAccounts(q, ids).fields;
    assert fields == [] <==> q.fields == [];
    assert fields != [] ==> AccountID in fields;
    assert forall c :: c in fields && c != AccountID ==> c in q.fields;
    assert forall c :: c in q.fields ==> c in fields;
  }

  // ---- The rows of each query ----

  ghost predicate Answered(db: Database, q: AccountQ, rows: seq<AccountRow>) {
    Answers(db.accounts, (r: AccountRow) => Meets(q.predicates, r), q.order, q.limit, q.offset, rows)
  }

  /** The rows of the children query for the accounts `ids`. */
  ghost predicate ChildrenAnswered(db: Database, q: AccountQ, ids: seq<int>, rows: seq<AccountRow>) {
    Answers(db.accounts, (r: AccountRow) => Meets(q.predicates, r) && NamesOne(ids, r),
            q.order, q.limit, q.offset, rows)
  }

  ghost predicate NamesOne(ids: seq<int>, r: AccountRow) {
    exists k :: k in ids && r.parentAccountID == Some(k)
  }

  ghost predicate LinksAnswered(db: Database, q: AccountGroupQ, ids: seq<int>, rows: seq<AccountGroupRow>) {
    Answers(db.accountGroups, (r: AccountGroupRow) => LinkMeets(q.predicates, r) && r.accountID in ids,
            q.order, q.limit, q.offset, rows)
  }

  /** The rows of a groups query without a window, for one account. */
  ghost predicate GroupsAnswered(db: Database, q: GroupQ, id: int, rows: seq<GroupRow>) {
    Answers(db.groups, (g: GroupRow) => GroupMeets(q.predicates, g) && LinkedTo(db, id, g),
            q.order, None, None, rows)
  }

  ghost predicate LinkedTo(db: Database, id: int, g: GroupRow) {
    exists l :: l in db.accountGroups && l.groupID == g.id && l.accountID == id
  }

  lemma {:induction false} SelectAnswers<T(!new)>(table: seq<T>, keep: T -> bool, other: T -> bool, order: T -> int,
                                                  limit: Option<nat>, offset: Option<nat>, rows: seq<T>)
    requires forall x :: x in table ==> keep(x) == other(x)
    ensures rows == Select(table, keep, order, limit, offset) <==> Answers(table, other, order, limit, offset, rows)
  {
    SelectionExactly(table, keep, order, limit, offset, rows);
    if Answers(table, keep, order, limit, offset, rows) {
      AnswersAlike(table, keep, other, order, limit, offset, rows);
    }
    if Answers(table, other, order, limit, offset, rows) {
      AnswersAlike(table, other, keep, order, limit, offset, rows);
    }
  }

  /** The root rows: those that meet the conditions, in the order asked for, cut by offset and limit. */
  lemma {:induction false} AnsweredExactly(db: Database, q: AccountQ, rows: seq<AccountRow>)
    ensures rows == AccountRows(db, q) <==> Answered(db, q, rows)
  {
    HoldIsMeets();
    var keep := (r: AccountRow) => Meets(q.predicates, r);
    hide Select, AllHold, Meets, Answers;
    SelectAnswers(db.accounts, Keeps(q.predicates), keep, q.order, q.limit, q.offset, rows);
  }

  /** The rows of a children query: those that name one of the accounts as well. */
  lemma {:induction false} ChildrenAnsweredExactly(db: Database, q: AccountQ, ids: seq<int>, rows: seq<AccountRow>)
    ensures rows == AccountRows(db, OfParents(q, ids)) <==> ChildrenAnswered(db, q, ids, rows)
  {
    var ps := q.predicates + [ParentIn(ids)];
    var keep := (r: AccountRow) => Meets(q.predicates, r) && NamesOne(ids, r);
    forall r: AccountRow ensures Keeps(ps)(r) == keep(r) {
      AllHoldAppend(q.predicates, ParentIn(ids), r);
      HoldIsMeetsFor(q.predicates, r);
      HoldsIsMeets(ParentIn(ids), r);
    }
    hide Select, AllHold, Meets, Answers, NamesOne;
    SelectAnswers(db.accounts, Keeps(ps), keep, q.order, q.limit, q.offset, rows);
  }

  /** The rows of an account-groups query: those that belong to one of the accounts as well. */
  lemma {:induction false} LinksAnsweredExactly(db: Database, q: AccountGroupQ, ids: seq<int>,
                                                rows: seq<AccountGroupRow>)
    ensures rows == AccountGroupRows(db, OfAccounts(q, ids)) <==> LinksAnswered(db, q, ids, rows)
  {
    var ps := q.predicates + [AccountGroupAccountIn(ids)];
    var keep := (r: AccountGroupRow) => LinkMeets(q.predicates, r) && r.accountID in ids;
    forall r: AccountGroupRow ensures KeepsLink(ps)(r) == keep(r) {
      assert forall i :: 0 <= i < |q.predicates| ==> ps[i] == q.predicates[i];
      assert ps[|q.predicates|] == AccountGroupAccountIn(ids);
    }
    hide Select, AllAccountGroupHold, LinkMeets, Answers;
    SelectAnswers(db.accountGroups, KeepsLink(ps), keep, q.order, q.limit, q.offset, rows);
  }

  /** The groups of one account: those linked to it that meet the conditions, in the order asked for. */
  lemma {:induction false} GroupsAnsweredExactly(db: Database, q: GroupQ, id: int, rows: seq<GroupRow>)
    requires db.Keyed() && q.limit.None? && q.offset.None?
    ensures rows == NaiveGroups(db, Some(q), id) <==> GroupsAnswered(db, q, id, rows)
  {
    var keep, linked := KeepsGroup(q.predicates), (g: GroupRow) => Linked(db.accountGroups, [id], g.id);
    var asked := (g: GroupRow) => GroupMeets(q.predicates, g) && LinkedTo(db, id, g);
    var both := (g: GroupRow) => keep(g) && linked(g);
    var key := (g: GroupRow) => g.id;
    FilterUnique(db.groups, keep, key);
    SortByUnique(Filter(db.groups, keep), q.order, key);
    GroupNodesOfJoin(SortBy(Filter(db.groups, keep), q.order), db.accountGroups, [id]);
    FilterSortBy(Filter(db.groups, keep), q.order, linked);
    FilterFilter(db.groups, linked, keep, both);
    assert NaiveGroups(db, Some(q), id) == Select(db.groups, both, q.order, None, None);
    forall g: GroupRow ensures both(g) == asked(g) {
      HoldIsMeets();
      LinkedIsLinkedTo(db, id, g);
    }
    hide Select, AllGroupHold, GroupMeets, Answers, LinkedTo, Linked, NaiveGroups;
    SelectAnswers(db.groups, both, asked, q.order, None, None, rows);
  }

  lemma {:induction false} LinkedIsLinkedTo(db: Database, id: int, g: GroupRow)
    ensures Linked(db.accountGroups, [id], g.id) <==> LinkedTo(db, id, g)
  {
  }

  // ---- The join rows of a groups query ----

  /** The position of a group and of a link. */
  datatype At = At(group: nat, link: nat) {
    predicate Before(other: At) {
      group < other.group || (group == other.group && link < other.link)
    }
  }

  predicate Matches(groups: seq<GroupRow>, links: seq<AccountGroupRow>, ids: seq<int>, p: At) {
    p.group < |groups| && p.link < |links| && OfGroup(links[p.link], ids, groups[p.group])
  }

  predicate OfGroup(l: AccountGroupRow, ids: seq<int>, g: GroupRow) {
    l.groupID == g.id && l.accountID in ids
  }

  /** A join: one row per matching pair of a group and a link, by group and then by link. */
  ghost predicate JoinInOrder(groups: seq<GroupRow>, links: seq<AccountGroupRow>, ids: seq<int>, at: seq<At>,
                              stream: seq<JoinRow>)
  {
    && |at| == |stream|
    && (forall i :: 0 <= i < |at| ==>
          Matches(groups, links, ids, at[i])
          && stream[i] == JoinRow(links[at[i].link].accountID, groups[at[i].group]))
    && (forall i, j :: 0 <= i < j < |at| ==> at[i].Before(at[j]))
    && (forall p :: Matches(groups, links, ids, p) ==> p in at)
  }

  /** The links of one group, by position. */
  ghost predicate LinksInOrder(links: seq<AccountGroupRow>, ids: seq<int>, g: GroupRow, at: seq<nat>,
                               stream: seq<JoinRow>)
  {
    && |at| == |stream|
    && (forall i :: 0 <= i < |at| ==>
          at[i] < |links| && OfGroup(links[at[i]], ids, g) && stream[i] == JoinRow(links[at[i]].accountID, g))
    && (forall i, j :: 0 <= i < j < |at| ==> at[i] < at[j])
    && (forall l: nat :: l < |links| && OfGroup(links[l], ids, g) ==> l in at)
  }

  lemma {:induction false} LinkPositions(links: seq<AccountGroupRow>, ids: seq<int>, g: GroupRow)
    returns (at: seq<nat>)
    ensures LinksInOrder(links, ids, g, at, JoinsOf(links, ids, g))
  {
    if links == [] {
      at := [];
    } else {
      var n := |links| - 1;
      var before := LinkPositions(links[..n], ids, g);
      hide JoinsOf;
      at := NextLink(links[..n], ids, g, links[n], before, JoinsOf(links[..n], ids, g));
      assert links == links[..n] + [links[n]];
      assert JoinsOf(links, ids, g) == JoinsOf(links[..n], ids, g)
        + (if OfGroup(links[n], ids, g) then [JoinRow(links[n].accountID, g)] else []) by {
        JoinsOfStep(links, ids, g);
      }
    }
  }

  lemma {:induction false} JoinsOfStep(links: seq<AccountGroupRow>, ids: seq<int>, g: GroupRow)
    requires links != []
    ensures var n := |links| - 1;
      JoinsOf(links, ids, g) == JoinsOf(links[..n], ids, g)
        + (if OfGroup(links[n], ids, g) then [JoinRow(links[n].accountID, g)] else [])
  {
  }

  lemma {:induction false} NextLink(links: seq<AccountGroupRow>, ids: seq<int>, g: GroupRow, l: AccountGroupRow,
                                    before: seq<nat>, stream: seq<JoinRow>) returns (at: seq<nat>)
    requires LinksInOrder(links, ids, g, before, stream)
    ensures LinksInOrder(links + [l], ids, g, at,
                         stream + (if OfGroup(l, ids, g) then [JoinRow(l.accountID, g)] else []))
  {
    var n := |links|;
    at := before + (if OfGroup(l, ids, g) then [n] else []);
    forall k: nat | k < n + 1 && OfGroup((links + [l])[k], ids, g) ensures k in at {
      if k == n {
        assert at[|before|] == n;
      }
    }
  }

  /** The positions of group `n` with its links. */
  function GroupAts(n: nat, own: seq<nat>): (at: seq<At>)
    ensures |at| == |own| && forall i :: 0 <= i < |at| ==> at[i] == At(n, own[i])
  {
    seq(|own|, i requires 0 <= i < |own| => At(n, own[i]))
  }

  lemma {:induction false} NextGroupOrder(n: nat, before: seq<At>, own: seq<nat>)
    requires forall i :: 0 <= i < |before| ==> before[i].group < n
    requires forall i, j :: 0 <= i < j < |before| ==> before[i].Before(before[j])
    requires forall i, j :: 0 <= i < j < |own| ==> own[i] < own[j]
    ensures var at := before + GroupAts(n, own);
      forall i, j :: 0 <= i < j < |at| ==> at[i].Before(at[j])
  {
  }

  lemma {:induction false} NextGroupCovers(groups: seq<GroupRow>, links: seq<AccountGroupRow>, ids: seq<int>,
                                           g: GroupRow, before: seq<At>, own: seq<nat>, p: At)
    requires Matches(groups + [g], links, ids, p)
    requires Matches(groups, links, ids, p) ==> p in before
    requires OfGroup(links[p.link], ids, g) ==> p.link in own
    ensures p in before + GroupAts(|groups|, own)
  {
    hide OfGroup;
    if p.group == |groups| {
      var i :| 0 <= i < |own| && own[i] == p.link;
      assert GroupAts(|groups|, own)[i] == p;
    }
  }

  lemma {:induction false} NextGroup(groups: seq<GroupRow>, links: seq<AccountGroupRow>, ids: seq<int>, g: GroupRow,
                                     before: seq<At>, stream: seq<JoinRow>, own: seq<nat>,
                                     joins: seq<JoinRow>) returns (at: seq<At>)
    requires JoinInOrder(groups, links, ids, before, stream) && LinksInOrder(links, ids, g, own, joins)
    ensures JoinInOrder(groups + [g], links, ids, at, stream + joins)
  {
    hide OfGroup;
    var n, all := |groups|, groups + [g];
    at := before + GroupAts(n, own);
    NextGroupOrder(n, before, own);
    forall p | Matches(all, links, ids, p) ensures p in at {
      NextGroupCovers(groups, links, ids, g, before, own, p);
    }
    hide At.Before;
    forall i | 0 <= i < |at|
      ensures Matches(all, links, ids, at[i])
      ensures (stream + joins)[i] == JoinRow(links[at[i].link].accountID, all[at[i].group])
    {
    }
  }

  /** The stream the groups loader reads is the join of the groups with the links of the accounts. */
  lemma {:induction false} JoinPositions(groups: seq<GroupRow>, links: seq<AccountGroupRow>, ids: seq<int>)
    returns (at: seq<At>)
    ensures JoinInOrder(groups, links, ids, at, JoinStream(groups, links, ids))
  {
    if groups == [] {
      at := [];
    } else {
      hide JoinInOrder, LinksInOrder;
      var n := |groups| - 1;
      var before := JoinPositions(groups[..n], links, ids);
      var own := LinkPositions(links, ids, groups[n]);
      at := NextGroup(groups[..n], links, ids, groups[n], before, JoinStream(groups[..n], links, ids), own,
                      JoinsOf(links, ids, groups[n]));
      assert groups == groups[..n] + [groups[n]];
    }
  }

  /**
   * The join rows of a groups query: the groups that meet its conditions, in its order, joined with
   * the accounts `ids`, and the window applied to the joined rows.
   */
  lemma {:induction false} JoinRowsAnswered(db: Database, q: GroupQ, ids: seq<int>)
    returns (groups: seq<GroupRow>, at: seq<At>, stream: seq<JoinRow>)
    ensures Answers(db.groups, (g: GroupRow) => GroupMeets(q.predicates, g), q.order, None, None, groups)
    ensures JoinInOrder(groups, db.accountGroups, ids, at, stream)
    ensures Cut(stream, q.limit, q.offset, JoinRows(db, q, ids))
  {
    var keep, asked := KeepsGroup(q.predicates), (g: GroupRow) => GroupMeets(q.predicates, g);
    groups := SortBy(Filter(db.groups, keep), q.order);
    HoldIsMeets();
    assert groups == Select(db.groups, keep, q.order, None, None);
    at := JoinPositions(groups, db.accountGroups, ids);
    stream := JoinStream(groups, db.accountGroups, ids);
    hide Select, AllGroupHold, GroupMeets, Answers, JoinInOrder, Cut, Window;
    SelectAnswers(db.groups, keep, asked, q.order, None, None, groups);
    WindowCuts(stream, q.limit, q.offset);
  }
}
