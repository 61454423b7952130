/** Tables, rows and column selection. */
module Schema {
  import opened Collections

  datatype AccountRow = AccountRow(
    id: int, proxyID: Option<int>, parentAccountID: Option<int>, attributes: map<string, string>)
  datatype ProxyRow = ProxyRow(id: int, name: string)
  datatype GroupRow = GroupRow(id: int, name: string)
  datatype AccountGroupRow = AccountGroupRow(accountID: int, groupID: int, priority: int)

  /** One snapshot of the four tables. */
  datatype Database = Database(
    accounts: seq<AccountRow>, proxies: seq<ProxyRow>,
    groups: seq<GroupRow>, accountGroups: seq<AccountGroupRow>)
  {
    /** Primary keys; foreign keys may dangle. */
    ghost predicate Keyed() {
      && Unique(accounts, (r: AccountRow) => r.id)
      && Unique(proxies, (r: ProxyRow) => r.id)
      && Unique(groups, (r: GroupRow) => r.id)
    }
  }

  datatype Column = ID | ProxyID | ParentAccountID | Attribute(name: string)

  datatype AccountGroupColumn = AccountID | GroupID | Priority

  function AppendOnce<T(==)>(cols: seq<T>, c: T): (r: seq<T>)
    ensures c in r && cols <= r
    ensures forall d :: d in r ==> d in cols || d == c
  {
    if c in cols then cols else cols + [c]
  }

  predicate NotID(c: Column) {
    c != ID
  }

  /**
   * The columns an account query asks for; None stands for every column. The identifier comes
   * first, the other selected fields follow as selected, every foreign key a requested edge needs is
   * there, and nothing else.
   */
  function AccountColumns(fields: seq<Column>, proxy: bool, parent: bool): (cols: Option<seq<Column>>)
    ensures cols.None? <==> fields == []
    ensures cols.Some? ==> [ID] + Filter(fields, NotID) <= cols.value
    ensures proxy ==> Has(cols, ProxyID)
    ensures parent ==> Has(cols, ParentAccountID)
    ensures forall c :: c in fields ==> Has(cols, c)
    ensures cols.Some? ==> forall c :: c in cols.value ==>
      c in fields || c == ID || (proxy && c == ProxyID) || (parent && c == ParentAccountID)
  {
    if fields == [] then None
    else
      var cols := [ID] + Filter(fields, NotID);
      var cols := if proxy then AppendOnce(cols, ProxyID) else cols;
      Some(if parent then AppendOnce(cols, ParentAccountID) else cols)
  }

  function AccountGroupColumns(fields: seq<AccountGroupColumn>, account: bool, group: bool)
    : (cols: Option<seq<AccountGroupColumn>>)
    ensures cols.None? <==> fields == []
    ensures account ==> Has(cols, AccountID)
    ensures group ==> Has(cols, GroupID)
    ensures forall c :: c in fields ==> Has(cols, c)
    ensures cols.Some? ==> forall c :: c in cols.value ==>
      c in fields || (account && c == AccountID) || (group && c == GroupID)
  {
    if fields == [] then None
    else
      var cols := if account then AppendOnce(fields, AccountID) else fields;
      Some(if group then AppendOnce(cols, GroupID) else cols)
  }

  /** Adding a foreign key to a selection; an empty selection already has every column. */
  function AppendFieldOnce<T(==)>(fields: seq<T>, c: T): seq<T> {
    if fields == [] then [] else AppendOnce(fields, c)
  }

  predicate Has<T(==)>(cols: Option<seq<T>>, c: T) {
    cols.None? || c in cols.value
  }

  /** What a node keeps of a row: a column that was not read leaves the zero value. */
  function ProjectAccount(r: AccountRow, cols: Option<seq<Column>>): AccountRow {
    AccountRow(
      if Has(cols, ID) then r.id else 0,
      if Has(cols, ProxyID) then r.proxyID else None,
      if Has(cols, ParentAccountID) then r.parentAccountID else None,
      map k | k in r.attributes && Has(cols, Attribute(k)) :: r.attributes[k])
  }

  function ProjectAccountGroup(r: AccountGroupRow, cols: Option<seq<AccountGroupColumn>>): AccountGroupRow {
    AccountGroupRow(
      if Has(cols, AccountID) then r.accountID else 0,
      if Has(cols, GroupID) then r.groupID else 0,
      if Has(cols, Priority) then r.priority else 0)
  }
}
