/** From `Save` to a later query: the inserted rows decode to the nodes the save returned. */
module SavedAccounts {
  import opened Collections
  import opened AccountBuilder
  import opened AccountCodec
  import opened BulkRun
  import opened BulkLaws
  import Schema

  lemma {:induction false} DefaultKind(c: Column, rt: Runtime)
    requires DefaultOf(c, rt).Some?
    ensures !c.Unknown? && KindOf(DefaultOf(c, rt).value) == FieldKind(c)
  {
  }

  /** `defaults` keeps every value at the type of its struct field. */
  lemma {:induction false} DefaultsTyped(m: Fields, rt: Runtime)
    requires Typed(m)
    ensures Typed(Defaults(m, rt))
  {
    hide DefaultOf, FieldKind, KindOf, DEFAULTED;
    var d := Defaults(m, rt);
    forall c | c in d ensures !c.Unknown? && KindOf(d[c]) == FieldKind(c) {
      if c !in m {
        DefaultKind(c, rt);
      }
    }
  }

  /**
   * If no hook hides an error and the save succeeds, decoding the row of the j-th specification of
   * the last batch, with any list of columns, yields the j-th returned node field by field, as long
   * as its JSON documents survive encoding.
   */
  lemma {:induction false} SavedReadsBack(p: Plan, e: Encoding, j: nat, columns: seq<Column>)
    requires p.Valid() && HonestFrom(p, 0) && Run(p).0.Ok? && j < |p.fields| && Typed(p.fields[j])
    requires forall c :: c in columns ==> Rebuilt(e, p.fields[j], c)
    ensures var s := Run(p).1;
      && s.batches != [] && |s.batches[|s.batches| - 1]| == |p.fields|
      && s.batches[|s.batches| - 1][j].Some? && s.nodes[j].Some?
      && var spec := s.batches[|s.batches| - 1][j].value.spec;
         var node := s.nodes[j].value.fields[ID := Int(s.nodes[j].value.id)];
         var r := DecodeRow(e, columns, Cells(e, spec, s.nodes[j].value.id, columns));
         r.Some? && forall c :: c in columns && !c.Unknown? ==> ContentOf(r.value, c) == ContentOf(node, c)
  {
    hide Run, DecodeRow, Cells, ContentOf, SpecOf, NodeOf, Rebuilt, HonestFrom;
    SuccessIsSaved(p, j);
    var s := Run(p).1;
    ReadBack(e, p.fields[j], s.nodes[j].value.id, columns);
  }

  // ---- The rows eager loading reads ----

  /** The key columns of the query model; every other column is an attribute there. */
  function QueryColumn(c: Column): Schema.Column {
    match c
    case ID => Schema.ID
    case ProxyID => Schema.ProxyID
    case ParentAccountID => Schema.ParentAccountID
    case _ => Schema.Attribute("")
  }

  function KeyIn(m: Fields, c: Column): Option<int> {
    if c in m && m[c].Int? then Some(m[c].number) else None
  }

  /** The row of the query model for a saved account, without its attributes. */
  function QueryRow(m: Fields, id: int): Schema.AccountRow {
    Schema.AccountRow(id, KeyIn(m, ProxyID), KeyIn(m, ParentAccountID), map[])
  }

  function KeyContent(key: Option<int>): Content {
    if key.Some? then Pointer(Int(key.value)) else Nil
  }

  lemma {:induction false} Asked(columns: seq<Column>, c: Column)
    requires c == ID || c == ProxyID || c == ParentAccountID
    ensures QueryColumn(c) in Map(columns, QueryColumn) <==> c in columns
  {
    var asked := Map(columns, QueryColumn);
    if c in columns {
      var i :| 0 <= i < |columns| && columns[i] == c;
      assert asked[i] == QueryColumn(c);
    }
    if QueryColumn(c) in asked {
      var i :| 0 <= i < |asked| && asked[i] == QueryColumn(c);
      assert asked[i] == QueryColumn(columns[i]);
    }
  }

  lemma {:induction false} SavedKey(m: Fields, id: int, c: Column)
    requires Typed(m) && (c == ProxyID || c == ParentAccountID)
    ensures ContentOf(Saved(m, id), c) == KeyContent(KeyIn(m, c)) && ContentOf(map[], c) == Nil
  {
    hide NodeOf;
    NodeMirrorsMutation(m, c);
  }

  /**
   * The identifier and the foreign keys that eager loading reads off a row are those the decoder
   * finds in it, for any selection of columns: a column that was not read counts as zero or nil.
   */
  lemma {:induction false} KeysAreDecoded(e: Encoding, m: Fields, id: int, columns: seq<Column>)
    requires Typed(m) && forall c :: c in columns ==> Rebuilt(e, m, c)
    ensures var r := DecodeRow(e, columns, Cells(e, SpecOf(m), id, columns));
      var row := Schema.ProjectAccount(QueryRow(m, id), Some(Map(columns, QueryColumn)));
      && r.Some?
      && ContentOf(r.value, ID) == Plain(Int(row.id))
      && ContentOf(r.value, ProxyID) == KeyContent(row.proxyID)
      && ContentOf(r.value, ParentAccountID) == KeyContent(row.parentAccountID)
  {
    hide DecodeRow, Cells, SpecOf, NodeOf, Rebuilt, Map;
    ReadBack(e, m, id, columns);
    Asked(columns, ID);
    Asked(columns, ProxyID);
    Asked(columns, ParentAccountID);
    SavedKey(m, id, ProxyID);
    SavedKey(m, id, ParentAccountID);
  }
}
