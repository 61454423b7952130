/** Reading inserted accounts back: scan destinations, row decoding and the round trip. */
module AccountCodec {
  import opened Collections
  import opened AccountBuilder

  /** What a row holds in one column. */
  datatype Cell =
    | Null | TimeCell(time: int) | TextCell(text: string) | IntCell(number: int) | FloatCell(amount: real)
    | BoolCell(flag: bool) | BytesCell(bytes: string)

  /** JSON encoding and decoding. */
  datatype Encoding = Encoding(marshal: Document -> string, unmarshal: string -> Option<Document>)

  // ---- The stored row ----

  /** What the insert writes for a value announced with a field type; JSON is the one type that is encoded. */
  function Stored(e: Encoding, t: FieldType, v: Value): Cell {
    match v
    case Time(x) => TimeCell(x)
    case Text(x) => TextCell(x)
    case Int(x) => IntCell(x)
    case Float(x) => FloatCell(x)
    case Bool(x) => BoolCell(x)
    case Json(d) => if t == TypeJSON then BytesCell(e.marshal(d)) else Null
  }

  function FieldCell(e: Encoding, fields: seq<FieldSpec>, c: Column): Cell {
    if fields == [] then Null
    else if fields[0].column == c then Stored(e, fields[0].fieldType, fields[0].value)
    else FieldCell(e, fields[1..], c)
  }

  function EdgeCell(e: Encoding, edges: seq<EdgeSpec>, c: Column): Cell {
    if edges == [] then Null
    else if edges[0].column == c then Stored(e, TypeInt64, edges[0].target)
    else EdgeCell(e, edges[1..], c)
  }

  /** The row a specification inserts under an identifier; a column it does not mention stays NULL. */
  function Row(e: Encoding, spec: Spec, id: int, c: Column): Cell {
    if c == ID then IntCell(id)
    else if FieldCell(e, spec.fields, c) != Null then FieldCell(e, spec.fields, c)
    else EdgeCell(e, spec.edges, c)
  }

  // ---- Scanning ----

  /** A scan destination and what the driver put into it. */
  datatype Slot =
    | NullTime(valid: bool, time: int) | NullString(valid: bool, text: string) | NullInt64(valid: bool, number: int)
    | NullFloat64(valid: bool, amount: real) | NullBool(valid: bool, flag: bool) | Bytes(bytes: string)
    | UnknownType(cell: Cell)

  /** The destination `scanValues` allocates for a column. */
  function Destination(c: Column): Slot {
    match c
    case Credentials | Extra => Bytes("")
    case AutoPauseOnExpired | Schedulable => NullBool(false, false)
    case RateMultiplier => NullFloat64(false, 0.0)
    case ID | ProxyID | ProxyFallbackOriginID | Concurrency | LoadFactor | Priority | ParentAccountID =>
      NullInt64(false, 0)
    case Name | Notes | Platform | Type | Status | ErrorMessage | TempUnschedulableReason => NullString(false, "")
    case SessionWindowStatus | QuotaDimension => NullString(false, "")
    case CreatedAt | UpdatedAt | DeletedAt | LastUsedAt | ExpiresAt | RateLimitedAt => NullTime(false, 0)
    case RateLimitResetAt | OverloadUntil | TempUnschedulableUntil => NullTime(false, 0)
    case SessionWindowStart | SessionWindowEnd => NullTime(false, 0)
    case Unknown(_) => UnknownType(Null)
  }

  /** One `Scan` of a driver value into a destination; None is the driver's conversion error. */
  function Scan(slot: Slot, cell: Cell): Option<Slot> {
    match (slot, cell)
    case (NullTime(_, _), Null) => Some(NullTime(false, 0))
    case (NullTime(_, _), TimeCell(x)) => Some(NullTime(true, x))
    case (NullString(_, _), Null) => Some(NullString(false, ""))
    case (NullString(_, _), TextCell(x)) => Some(NullString(true, x))
    case (NullInt64(_, _), Null) => Some(NullInt64(false, 0))
    case (NullInt64(_, _), IntCell(x)) => Some(NullInt64(true, x))
    case (NullFloat64(_, _), Null) => Some(NullFloat64(false, 0.0))
    case (NullFloat64(_, _), FloatCell(x)) => Some(NullFloat64(true, x))
    case (NullBool(_, _), Null) => Some(NullBool(false, false))
    case (NullBool(_, _), BoolCell(x)) => Some(NullBool(true, x))
    case (Bytes(_), Null) => Some(Bytes(""))
    case (Bytes(_), BytesCell(x)) => Some(Bytes(x))
    case (UnknownType(_), _) => Some(UnknownType(cell))
    case _ => None
  }

  method ScanValues(columns: seq<Column>) returns (values: array<Slot>)
    ensures fresh(values) && values.Length == |columns|
    ensures forall i :: 0 <= i < |columns| ==> values[i] == Destination(columns[i])
  {
    values := new Slot[|columns|](_ => UnknownType(Null));
    for i := 0 to |columns|
      invariant forall j :: 0 <= j < i ==> values[j] == Destination(columns[j])
    {
      values[i] := Destination(columns[i]);
    }
  }

  // ---- Assigning ----

  /** What assigning one scanned value does to the struct. */
  datatype Effect = Keep | Write(value: Value) | WrongType | BadJson

  function AssignTime(slot: Slot): Effect {
    if !slot.NullTime? then WrongType else if slot.valid then Write(Time(slot.time)) else Keep
  }

  function AssignText(slot: Slot): Effect {
    if !slot.NullString? then WrongType else if slot.valid then Write(Text(slot.text)) else Keep
  }

  function AssignInt(slot: Slot): Effect {
    if !slot.NullInt64? then WrongType else if slot.valid then Write(Int(slot.number)) else Keep
  }

  function AssignFloat(slot: Slot): Effect {
    if !slot.NullFloat64? then WrongType else if slot.valid then Write(Float(slot.amount)) else Keep
  }

  function AssignBool(slot: Slot): Effect {
    if !slot.NullBool? then WrongType else if slot.valid then Write(Bool(slot.flag)) else Keep
  }

  function AssignJson(e: Encoding, slot: Slot): Effect {
    if !slot.Bytes? then WrongType
    else if slot.bytes == "" then Keep
    else
      var d := e.unmarshal(slot.bytes);
      if d.Some? then Write(Json(d.value)) else BadJson
  }

  /** The case `assignValues` takes for a column. */
  function Assign(e: Encoding, c: Column, slot: Slot): Effect {
    match c
    case ID => if slot.NullInt64? then Write(Int(slot.number)) else WrongType
    case CreatedAt => AssignTime(slot)
    case UpdatedAt => AssignTime(slot)
    case DeletedAt => AssignTime(slot)
    case Name => AssignText(slot)
    case Notes => AssignText(slot)
    case Platform => AssignText(slot)
    case Type => AssignText(slot)
    case Credentials => AssignJson(e, slot)
    case Extra => AssignJson(e, slot)
    case ProxyID => AssignInt(slot)
    case ProxyFallbackOriginID => AssignInt(slot)
    case Concurrency => AssignInt(slot)
    case LoadFactor => AssignInt(slot)
    case Priority => AssignInt(slot)
    case RateMultiplier => AssignFloat(slot)
    case Status => AssignText(slot)
    case ErrorMessage => AssignText(slot)
    case LastUsedAt => AssignTime(slot)
    case ExpiresAt => AssignTime(slot)
    case AutoPauseOnExpired => AssignBool(slot)
    case Schedulable => AssignBool(slot)
    case RateLimitedAt => AssignTime(slot)
    case RateLimitResetAt => AssignTime(slot)
    case OverloadUntil => AssignTime(slot)
    case TempUnschedulableUntil => AssignTime(slot)
    case TempUnschedulableReason => AssignText(slot)
    case SessionWindowStart => AssignTime(slot)
    case SessionWindowEnd => AssignTime(slot)
    case SessionWindowStatus => AssignText(slot)
    case ParentAccountID => AssignInt(slot)
    case QuotaDimension => AssignText(slot)
    case Unknown(_) => Keep
  }

  lemma {:induction false} KnownWritten(e: Encoding, c: Column, slot: Slot)
    ensures Assign(e, c, slot).Write? ==> !c.Unknown?
  {
  }

  /** Each column is assigned by the type of its struct field. */
  lemma {:induction false} AssignKind(e: Encoding, c: Column, slot: Slot)
    requires !c.Unknown? && c != ID
    ensures match FieldKind(c)
      case TimeKind => Assign(e, c, slot) == AssignTime(slot)
      case TextKind => Assign(e, c, slot) == AssignText(slot)
      case IntKind => Assign(e, c, slot) == AssignInt(slot)
      case FloatKind => Assign(e, c, slot) == AssignFloat(slot)
      case BoolKind => Assign(e, c, slot) == AssignBool(slot)
      case JsonKind => Assign(e, c, slot) == AssignJson(e, slot)
  {
    hide AssignTime, AssignText, AssignInt, AssignFloat, AssignBool, AssignJson;
  }

  /**
   * Assigning fails on a value that is not of the column's type and on bytes that are no JSON; else
   * it writes what is valid and keeps the zero value for what is not, except that the identifier is
   * always written.
   */
  lemma {:induction false} AssignExactly(e: Encoding, c: Column, slot: Slot)
    requires !c.Unknown?
    ensures match slot
      case NullTime(valid, x) => Assign(e, c, slot) == Assigned(FieldKind(c) == TimeKind, valid, Time(x))
      case NullString(valid, x) => Assign(e, c, slot) == Assigned(FieldKind(c) == TextKind, valid, Text(x))
      case NullInt64(valid, x) => Assign(e, c, slot) == Assigned(FieldKind(c) == IntKind, valid || c == ID, Int(x))
      case NullFloat64(valid, x) => Assign(e, c, slot) == Assigned(FieldKind(c) == FloatKind, valid, Float(x))
      case NullBool(valid, x) => Assign(e, c, slot) == Assigned(FieldKind(c) == BoolKind, valid, Bool(x))
      case Bytes(x) =>
        && (FieldKind(c) != JsonKind ==> Assign(e, c, slot) == WrongType)
        && (FieldKind(c) == JsonKind && x == "" ==> Assign(e, c, slot) == Keep)
        && (FieldKind(c) == JsonKind && x != "" && e.unmarshal(x).None? ==> Assign(e, c, slot) == BadJson)
        && (FieldKind(c) == JsonKind && x != "" && e.unmarshal(x).Some? ==>
              Assign(e, c, slot) == Write(Json(e.unmarshal(x).value)))
      case UnknownType(_) => Assign(e, c, slot) == WrongType
  {
    if c != ID {
      AssignKind(e, c, slot);
      hide Assign, FieldKind;
    }
  }

  ghost function Assigned(typed: bool, valid: bool, v: Value): Effect {
    if !typed then WrongType else if valid then Write(v) else Keep
  }

  /** What the assignments leave in the struct; None once one of them fails. */
  function AssignAll(e: Encoding, columns: seq<Column>, slots: seq<Slot>, m: Fields): Option<Fields>
    requires |columns| <= |slots|
  {
    if columns == [] then Some(m)
    else
      var n := |columns| - 1;
      var before := AssignAll(e, columns[..n], slots, m);
      if before.None? then None
      else
        match Assign(e, columns[n], slots[n])
        case Write(v) => Some(before.value[columns[n] := v])
        case Keep => before
        case _ => None
  }

  /** The values kept for columns the account does not have; a later one replaces an earlier one. */
  function SelectedAll(columns: seq<Column>, slots: seq<Slot>, was: map<string, Slot>): map<string, Slot>
    requires |columns| <= |slots|
  {
    if columns == [] then was
    else
      var n := |columns| - 1;
      var before := SelectedAll(columns[..n], slots, was);
      if columns[n].Unknown? then before[columns[n].name := slots[n]] else before
  }

  /** Position `i` holds the last column of that name. */
  ghost predicate LastNamed(columns: seq<Column>, name: string, i: nat) {
    i < |columns| && columns[i] == Unknown(name) && forall j :: i < j < |columns| ==> columns[j] != Unknown(name)
  }

  /** A name keeps the value of the last column of that name, and what it had if there is none. */
  lemma {:induction false} SelectedExactly(columns: seq<Column>, slots: seq<Slot>, was: map<string, Slot>, name: string)
    requires |columns| <= |slots|
    ensures var r := SelectedAll(columns, slots, was);
      && (forall i: nat :: LastNamed(columns, name, i) ==> name in r && r[name] == slots[i])
      && (Unknown(name) !in columns ==> (name in r <==> name in was) && (name in was ==> r[name] == was[name]))
  {
    if columns != [] {
      var n := |columns| - 1;
      assert columns == columns[..n] + [columns[n]];
      SelectedExactly(columns[..n], slots, was, name);
      forall i: nat | LastNamed(columns, name, i) && i < n ensures LastNamed(columns[..n], name, i) {
      }
    }
  }

  lemma {:induction false} AssignFails(e: Encoding, columns: seq<Column>, slots: seq<Slot>, m: Fields, n: nat)
    requires n <= |columns| <= |slots| && AssignAll(e, columns[..n], slots, m).None?
    ensures AssignAll(e, columns, slots, m).None?
    decreases |columns| - n
  {
    if n == |columns| {
      assert columns[..n] == columns;
    } else {
      assert columns[..n + 1][..n] == columns[..n];
      AssignFails(e, columns, slots, m, n + 1);
    }
  }

  /** The account struct being decoded. */
  class Account {
    var fields: Fields
    var selected: map<string, Slot>

    constructor ()
      ensures fields == map[] && selected == map[]
    {
      fields, selected := map[], map[];
    }

    /** Assigns scanned values column by column and stops at the first error. */
    method AssignValues(e: Encoding, columns: seq<Column>, values: array<Slot>) returns (ok: bool)
      modifies this
      ensures ok <==> |columns| <= values.Length && AssignAll(e, columns, values[..], old(fields)).Some?
      ensures ok ==> fields == AssignAll(e, columns, values[..], old(fields)).value
      ensures ok ==> selected == SelectedAll(columns, values[..], old(selected))
    {
      if values.Length < |columns| {
        return false;
      }
      for i := 0 to |columns|
        invariant AssignAll(e, columns[..i], values[..], old(fields)) == Some(fields)
        invariant SelectedAll(columns[..i], values[..], old(selected)) == selected
      {
        assert columns[..i + 1][..i] == columns[..i];
        match Assign(e, columns[i], values[i])
        case Write(v) =>
          KnownWritten(e, columns[i], values[i]);
          fields := fields[columns[i] := v];
        case Keep =>
          if columns[i].Unknown? {
            selected := selected[columns[i].name := values[i]];
          }
        case _ =>
          AssignFails(e, columns, values[..], old(fields), i + 1);
          return false;
      }
      assert columns[..|columns|] == columns;
      return true;
    }
  }

  /** The values the driver delivers for a row; None when one cannot be converted. */
  function ScanRow(columns: seq<Column>, cells: seq<Cell>): (r: Option<seq<Slot>>)
    requires |columns| == |cells|
    ensures r.Some? <==> forall i :: 0 <= i < |columns| ==> Scan(Destination(columns[i]), cells[i]).Some?
    ensures r.Some? ==> |r.value| == |columns|
    ensures r.Some? ==> forall i :: 0 <= i < |columns| ==> Some(r.value[i]) == Scan(Destination(columns[i]), cells[i])
  {
    if columns == [] then Some([])
    else
      var first := Scan(Destination(columns[0]), cells[0]);
      var rest := ScanRow(columns[1..], cells[1..]);
      if first.None? || rest.None? then None else Some([first.value] + rest.value)
  }

  function DecodeRow(e: Encoding, columns: seq<Column>, cells: seq<Cell>): Option<Fields>
    requires |columns| == |cells|
  {
    var slots := ScanRow(columns, cells);
    if slots.None? then None else AssignAll(e, columns, slots.value, map[])
  }

  /** Decodes one row: allocate the destinations, let the driver fill them, assign them to a new struct. */
  method Decode(e: Encoding, columns: seq<Column>, cells: seq<Cell>) returns (ok: bool, account: Account)
    requires |columns| == |cells|
    ensures fresh(account)
    ensures ok <==> DecodeRow(e, columns, cells).Some?
    ensures ok ==> account.fields == DecodeRow(e, columns, cells).value
    ensures ok ==> account.selected == SelectedAll(columns, ScanRow(columns, cells).value, map[])
  {
    account := new Account();
    var values := ScanValues(columns);
    for i := 0 to |columns|
      invariant account.fields == map[] && account.selected == map[]
      invariant forall j :: 0 <= j < i ==> Scan(Destination(columns[j]), cells[j]) == Some(values[j])
      invariant forall j :: i <= j < |columns| ==> values[j] == Destination(columns[j])
    {
      var slot := Scan(values[i], cells[i]);
      if slot.None? {
        return false, account;
      }
      values[i] := slot.value;
    }
    assert ScanRow(columns, cells).Some?;
    assert ScanRow(columns, cells).value == values[..];
    ok := account.AssignValues(e, columns, values);
  }

  // ---- Round trip ----

  /** Decoding gives the document back; an empty encoding is not decoded at all. */
  predicate Survives(e: Encoding, d: Document) {
    if e.marshal(d) == "" then d == NilMap else e.unmarshal(e.marshal(d)) == Some(d)
  }

  /** The node `createSpec` returned, once the insert has given it its identifier. */
  function Saved(m: Fields, id: int): Fields {
    NodeOf(m)[ID := Int(id)]
  }

  function Cells(e: Encoding, spec: Spec, id: int, columns: seq<Column>): (r: seq<Cell>)
    ensures |r| == |columns|
  {
    seq(|columns|, i requires 0 <= i < |columns| => Row(e, spec, id, columns[i]))
  }

  lemma {:induction false} FieldCellOf(e: Encoding, m: Fields, setters: seq<Column>, c: Column)
    ensures FieldCell(e, FieldSpecs(m, setters), c)
         == if c in m && c in setters then Stored(e, SpecType(c), m[c]) else Null
  {
    if setters != [] {
      assert setters == [setters[0]] + setters[1..];
      FieldCellOf(e, m, setters[1..], c);
      var d := setters[0];
      if d in m {
        var specs := FieldSpecs(m, setters);
        assert specs == [FieldSpec(d, SpecType(d), m[d])] + FieldSpecs(m, setters[1..]);
        assert specs[1..] == FieldSpecs(m, setters[1..]);
      } else {
        assert FieldSpecs(m, setters) == FieldSpecs(m, setters[1..]);
      }
    }
  }

  lemma {:induction false} EdgeCellOf(e: Encoding, m: Fields, c: Column)
    ensures EdgeCell(e, EdgeTo(m, ProxyID) + EdgeTo(m, ParentAccountID), c)
         == if c in m && (c == ProxyID || c == ParentAccountID) then Stored(e, TypeInt64, m[c]) else Null
  {
    var parent := EdgeTo(m, ParentAccountID);
    assert EdgeCell(e, parent, c) == if c in m && c == ParentAccountID then Stored(e, TypeInt64, m[c]) else Null by {
      if ParentAccountID in m {
        assert parent[1..] == [];
      }
    }
    if ProxyID in m {
      assert (EdgeTo(m, ProxyID) + parent)[1..] == parent;
    } else {
      assert EdgeTo(m, ProxyID) + parent == parent;
    }
  }

  /** What the inserted row holds in a column. */
  lemma {:induction false} RowOf(e: Encoding, m: Fields, id: int, c: Column)
    requires Typed(m) && c != ID
    ensures Row(e, SpecOf(m), id, c) == if c in m then Stored(e, SpecType(c), m[c]) else Null
  {
    hide SETTERS, FieldSpecs, EdgeTo, FieldCell, EdgeCell;
    FieldCellOf(e, m, SETTERS, c);
    EdgeCellOf(e, m, c);
    if c in m && c != ProxyID && c != ParentAccountID {
      HasSetter(c);
    }
  }

  lemma {:induction false} StoredNotNull(e: Encoding, c: Column, v: Value)
    requires !c.Unknown? && KindOf(v) == FieldKind(c)
    ensures Stored(e, SpecType(c), v) != Null
  {
  }

  /** A row whose mutation passed `check` has no NULL outside the nillable columns. */
  lemma {:induction false} RequiredNotNull(e: Encoding, m: Fields, id: int, c: Column)
    requires Typed(m) && Check(m).None? && !c.Unknown? && !Nillable(c)
    ensures Row(e, SpecOf(m), id, c) != Null
  {
    if c != ID {
      hide Check, SpecOf, Row, Stored, SpecType, FieldKind, Nillable;
      Passed(m, c);
      if c == SessionWindowStatus {
        SessionWindowIsNillable();
      }
      RowOf(e, m, id, c);
      StoredNotNull(e, c, m[c]);
    }
  }

  lemma {:induction false} SessionWindowIsNillable()
    ensures Nillable(SessionWindowStatus)
  {
  }

  /** What reading a column of the inserted row back does to the struct. */
  function ReadEffect(e: Encoding, m: Fields, id: int, c: Column): Effect {
    if c == ID then Write(Int(id))
    else if c !in m then Keep
    else if m[c].Json? then AssignJson(e, Bytes(e.marshal(m[c].document)))
    else Write(m[c])
  }

  /** Each column's destination has the type of its struct field. */
  lemma {:induction false} DestinationKind(c: Column)
    requires !c.Unknown?
    ensures match FieldKind(c)
      case TimeKind => Destination(c) == NullTime(false, 0)
      case TextKind => Destination(c) == NullString(false, "")
      case IntKind => Destination(c) == NullInt64(false, 0)
      case FloatKind => Destination(c) == NullFloat64(false, 0.0)
      case BoolKind => Destination(c) == NullBool(false, false)
      case JsonKind => Destination(c) == Bytes("")
  {
  }

  lemma {:induction false} JsonSpecType(c: Column)
    requires !c.Unknown? && FieldKind(c) == JsonKind
    ensures SpecType(c) == TypeJSON
  {
  }

  lemma {:induction false} CellReadBack(e: Encoding, c: Column, v: Value)
    requires !c.Unknown? && c != ID && KindOf(v) == FieldKind(c)
    ensures var slot := Scan(Destination(c), Stored(e, SpecType(c), v));
      && slot.Some?
      && Assign(e, c, slot.value) == if v.Json? then AssignJson(e, Bytes(e.marshal(v.document))) else Write(v)
  {
    hide AssignJson, FieldKind, Destination, Assign, SpecType;
    DestinationKind(c);
    if v.Json? {
      JsonSpecType(c);
    }
    var slot := Scan(Destination(c), Stored(e, SpecType(c), v));
    AssignKind(e, c, slot.value);
  }

  lemma {:induction false} NullReadBack(e: Encoding, c: Column)
    requires c != ID
    ensures var slot := Scan(Destination(c), Null);
      slot.Some? && Assign(e, c, slot.value) == Keep
  {
  }

  lemma {:induction false} ColumnReadBack(e: Encoding, m: Fields, id: int, c: Column)
    requires Typed(m)
    ensures var slot := Scan(Destination(c), Row(e, SpecOf(m), id, c));
      slot.Some? && Assign(e, c, slot.value) == ReadEffect(e, m, id, c)
  {
    hide SpecOf;
    if c != ID {
      hide Row, Scan, Assign, Destination, Stored, SpecType, FieldKind, AssignJson;
      RowOf(e, m, id, c);
      if c in m {
        CellReadBack(e, c, m[c]);
      } else {
        NullReadBack(e, c);
      }
    }
  }

  /** A JSON document in this column survives the round trip. */
  predicate Rebuilt(e: Encoding, m: Fields, c: Column) {
    c in m && c != ID && m[c].Json? ==> Survives(e, m[c].document)
  }

  ghost predicate Agrees(m: Fields, id: int, columns: seq<Column>, r: Fields) {
    forall c :: c in columns && !c.Unknown? ==> ContentOf(r, c) == ContentOf(Saved(m, id), c)
  }

  /** Columns that are not read keep the zero value. */
  ghost predicate Untouched(columns: seq<Column>, r: Fields) {
    forall c :: c in r ==> c in columns
  }

  lemma {:induction false} SlotsOfRow(e: Encoding, m: Fields, id: int, columns: seq<Column>)
    requires Typed(m)
    ensures ScanRow(columns, Cells(e, SpecOf(m), id, columns)).Some?
  {
    forall i | 0 <= i < |columns| ensures Scan(Destination(columns[i]), Row(e, SpecOf(m), id, columns[i])).Some? {
      ColumnReadBack(e, m, id, columns[i]);
    }
  }

  ghost predicate SlotsMatch(e: Encoding, m: Fields, id: int, columns: seq<Column>, slots: seq<Slot>) {
    && |columns| <= |slots|
    && forall i :: 0 <= i < |columns| ==> Some(slots[i]) == Scan(Destination(columns[i]),
                                                                 Row(e, SpecOf(m), id, columns[i]))
  }

  lemma {:induction false} JsonField(m: Fields, c: Column)
    requires Typed(m) && c in m && m[c].Json?
    ensures FieldKind(c) == JsonKind && !Nillable(c)
  {
  }

  lemma {:induction false} StepAgrees(e: Encoding, m: Fields, id: int, c: Column, before: Fields)
    requires Typed(m) && Rebuilt(e, m, c)
    requires c in before && !c.Unknown? ==> ContentOf(before, c) == ContentOf(Saved(m, id), c)
    ensures match ReadEffect(e, m, id, c)
      case Write(v) => !c.Unknown? && ContentOf(before[c := v], c) == ContentOf(Saved(m, id), c)
      case Keep => !c.Unknown? ==> ContentOf(before, c) == ContentOf(Saved(m, id), c)
      case _ => false
  {
    hide NodeOf, FieldKind, Nillable;
    if c != ID {
      NodeMirrorsMutation(m, c);
      if c in m && m[c].Json? {
        JsonField(m, c);
      }
    } else {
      IdentifierField();
    }
  }

  lemma {:induction false} IdentifierField()
    ensures !Nillable(ID)
  {
  }

  /** If every document read survives, the assignments rebuild the saved node. */
  lemma {:induction false} AssignsSaved(e: Encoding, m: Fields, id: int, columns: seq<Column>, slots: seq<Slot>)
    requires Typed(m) && SlotsMatch(e, m, id, columns, slots)
    requires forall c :: c in columns ==> Rebuilt(e, m, c)
    ensures var r := AssignAll(e, columns, slots, map[]);
      r.Some? && Agrees(m, id, columns, r.value) && Untouched(columns, r.value)
  {
    hide Row, Scan, Assign, ReadEffect, Rebuilt, Saved, SpecOf;
    if columns != [] {
      var n := |columns| - 1;
      var c := columns[n];
      assert columns == columns[..n] + [c];
      AssignsSaved(e, m, id, columns[..n], slots);
      var before := AssignAll(e, columns[..n], slots, map[]).value;
      ColumnReadBack(e, m, id, c);
      StepAgrees(e, m, id, c, before);
    }
  }

  /** The content of a JSON column after reading it back. */
  predicate Reads(e: Encoding, d: Document, content: Content) {
    if e.marshal(d) == "" then content == Plain(Json(NilMap))
    else e.unmarshal(e.marshal(d)).Some? && content == Plain(Json(e.unmarshal(e.marshal(d)).value))
  }

  ghost predicate ReadsDocuments(e: Encoding, m: Fields, columns: seq<Column>, r: Fields) {
    forall c :: c in columns && c in m && c != ID && m[c].Json? && !c.Unknown? ==>
      Reads(e, m[c].document, ContentOf(r, c))
  }

  lemma {:induction false} AssignsDocuments(e: Encoding, m: Fields, id: int, columns: seq<Column>, slots: seq<Slot>)
    requires Typed(m) && SlotsMatch(e, m, id, columns, slots)
    requires AssignAll(e, columns, slots, map[]).Some?
    ensures var r := AssignAll(e, columns, slots, map[]).value;
      ReadsDocuments(e, m, columns, r) && Untouched(columns, r)
  {
    hide Row, Scan, Assign, Reads, SpecOf, ContentOf;
    if columns != [] {
      var n := |columns| - 1;
      var c := columns[n];
      assert columns == columns[..n] + [c];
      AssignsDocuments(e, m, id, columns[..n], slots);
      ColumnReadBack(e, m, id, c);
      var before := AssignAll(e, columns[..n], slots, map[]).value;
      var r := AssignAll(e, columns, slots, map[]).value;
      forall d | d != c && !d.Unknown? ensures ContentOf(r, d) == ContentOf(before, d) {
        OtherContent(before, r, d);
      }
      if c in m && c != ID && m[c].Json? {
        StepReads(e, m, id, c, before);
      }
    }
  }

  lemma {:induction false} OtherContent(m: Fields, r: Fields, c: Column)
    requires !c.Unknown? && (c in m <==> c in r) && (c in m ==> m[c] == r[c])
    ensures ContentOf(m, c) == ContentOf(r, c)
  {
  }

  lemma {:induction false} StepReads(e: Encoding, m: Fields, id: int, c: Column, before: Fields)
    requires Typed(m) && c in m && c != ID && m[c].Json?
    requires c in before ==> Reads(e, m[c].document, ContentOf(before, c))
    ensures match ReadEffect(e, m, id, c)
      case Write(v) => Reads(e, m[c].document, ContentOf(before[c := v], c))
      case Keep => Reads(e, m[c].document, ContentOf(before, c))
      case _ => true
  {
    assert FieldKind(c) == JsonKind && !Nillable(c);
  }

  lemma {:induction false} ReadIsSaved(e: Encoding, m: Fields, id: int, c: Column, content: Content)
    requires Typed(m) && c in m && c != ID && m[c].Json? && Reads(e, m[c].document, content)
    requires content == ContentOf(Saved(m, id), c)
    ensures Survives(e, m[c].document)
  {
    hide NodeOf;
    NodeMirrorsMutation(m, c);
    assert FieldKind(c) == JsonKind && !Nillable(c);
  }

  /**
   * Insert and read back. For every column list, in any order, also with columns the account does
   * not have, decoding the inserted row yields the node `createSpec` returned, with zero values
   * where a column was not read, if and only if each JSON document read survives its encoding.
   */
  lemma {:induction false} ReadBack(e: Encoding, m: Fields, id: int, columns: seq<Column>)
    requires Typed(m)
    ensures var r := DecodeRow(e, columns, Cells(e, SpecOf(m), id, columns));
      r.Some? && Agrees(m, id, columns, r.value) && Untouched(columns, r.value)
      <==> forall c :: c in columns ==> Rebuilt(e, m, c)
  {
    hide SpecOf, AssignAll, Row, Saved, ContentOf, Scan, Destination;
    SlotsOfRow(e, m, id, columns);
    var slots := ScanRow(columns, Cells(e, SpecOf(m), id, columns)).value;
    assert SlotsMatch(e, m, id, columns, slots);
    if forall c :: c in columns ==> Rebuilt(e, m, c) {
      AssignsSaved(e, m, id, columns, slots);
    }
    var r := AssignAll(e, columns, slots, map[]);
    if r.Some? && Agrees(m, id, columns, r.value) {
      AssignsDocuments(e, m, id, columns, slots);
      forall c | c in columns && c in m && c != ID && m[c].Json? ensures Survives(e, m[c].document) {
        ReadIsSaved(e, m, id, c, ContentOf(r.value, c));
      }
    }
  }

  /**
   * The same value by value: an identifier, every column that was set and every document that
   * survives and is not encoded as nothing comes back, and nothing else does.
   */
  lemma {:induction false} ReadBackValues(e: Encoding, m: Fields, id: int, columns: seq<Column>)
    requires Typed(m) && forall c :: c in columns ==> Rebuilt(e, m, c)
    ensures var r := DecodeRow(e, columns, Cells(e, SpecOf(m), id, columns));
      && r.Some?
      && (forall c :: c in r.value ==> c in columns)
      && (forall c :: c in columns ==> HoldsValue(e, m, id, c, r.value))
  {
    hide SpecOf, AssignAll, Row, Scan, Destination, HoldsValue, Rebuilt;
    SlotsOfRow(e, m, id, columns);
    var slots := ScanRow(columns, Cells(e, SpecOf(m), id, columns)).value;
    assert SlotsMatch(e, m, id, columns, slots);
    AssignsValues(e, m, id, columns, slots);
  }

  /** What is read back of one column. */
  ghost predicate HoldsValue(e: Encoding, m: Fields, id: int, c: Column, r: Fields) {
    if c == ID then c in r && r[c] == Int(id)
    else if c !in m then c !in r
    else if m[c].Json? && e.marshal(m[c].document) == "" then c !in r
    else c in r && r[c] == m[c]
  }

  lemma {:induction false} AssignsValues(e: Encoding, m: Fields, id: int, columns: seq<Column>, slots: seq<Slot>)
    requires Typed(m) && SlotsMatch(e, m, id, columns, slots)
    requires forall c :: c in columns ==> Rebuilt(e, m, c)
    ensures var r := AssignAll(e, columns, slots, map[]);
      && r.Some?
      && (forall c :: c in r.value ==> c in columns)
      && (forall c :: c in columns ==> HoldsValue(e, m, id, c, r.value))
  {
    hide Row, Scan, Assign, Rebuilt, SpecOf, HoldsValue, ReadEffect;
    if columns != [] {
      var n := |columns| - 1;
      var c := columns[n];
      assert columns == columns[..n] + [c];
      AssignsValues(e, m, id, columns[..n], slots);
      var before := AssignAll(e, columns[..n], slots, map[]).value;
      ColumnReadBack(e, m, id, c);
      StepHolds(e, m, id, c, before, columns[..n]);
    }
  }

  lemma {:induction false} StepHolds(e: Encoding, m: Fields, id: int, c: Column, before: Fields, columns: seq<Column>)
    requires Rebuilt(e, m, c)
    requires forall d :: d in before ==> d in columns
    requires forall d :: d in columns ==> HoldsValue(e, m, id, d, before)
    ensures match ReadEffect(e, m, id, c)
      case Write(v) => forall d :: d in columns || d == c ==> HoldsValue(e, m, id, d, before[c := v])
      case Keep => HoldsValue(e, m, id, c, before)
      case _ => false
  {
    match ReadEffect(e, m, id, c)
    case Write(v) =>
      forall d | d in columns && d != c ensures HoldsValue(e, m, id, d, before[c := v]) {
        assert HoldsValue(e, m, id, d, before);
      }
      if c != ID && m[c].Json? {
        assert m[c] == Json(m[c].document);
        assert v == Json(e.unmarshal(e.marshal(m[c].document)).value);
        assert v == m[c];
      }
      assert HoldsValue(e, m, id, c, before[c := v]);
    case _ =>
  }

  /** What a struct field holds: nil or a pointer for nillable columns, else the value or its type's zero. */
  ghost predicate FieldHolds(c: Column, v: Option<Value>, content: Content)
    requires !c.Unknown?
  {
    if Nillable(c) then content == if v.Some? then Pointer(v.value) else Nil
    else if v.Some? then content == Plain(v.value)
    else
      match FieldKind(c)
      case TimeKind => content == Plain(Time(0))
      case TextKind => content == Plain(Text(""))
      case IntKind => content == Plain(Int(0))
      case FloatKind => content == Plain(Float(0.0))
      case BoolKind => content == Plain(Bool(false))
      case JsonKind => content == Plain(Json(NilMap))
  }

  /** What was stored in a column that is read; None for what was not set, not read or encoded as nothing. */
  ghost function ValueRead(e: Encoding, m: Fields, id: int, columns: seq<Column>, c: Column): Option<Value> {
    if c !in columns then None
    else if c == ID then Some(Int(id))
    else if c !in m || (m[c].Json? && e.marshal(m[c].document) == "") then None
    else Some(m[c])
  }

  /** The struct after decoding, field by field. */
  lemma {:induction false} StructExactly(e: Encoding, m: Fields, id: int, columns: seq<Column>, c: Column)
    requires Typed(m) && !c.Unknown? && forall d :: d in columns ==> Rebuilt(e, m, d)
    ensures var r := DecodeRow(e, columns, Cells(e, SpecOf(m), id, columns));
      r.Some? && FieldHolds(c, ValueRead(e, m, id, columns, c), ContentOf(r.value, c))
  {
    hide DecodeRow, Cells, SpecOf, Rebuilt, FieldKind, Nillable;
    ReadBackValues(e, m, id, columns);
    var r := DecodeRow(e, columns, Cells(e, SpecOf(m), id, columns)).value;
    assert c in columns ==> HoldsValue(e, m, id, c, r);
  }
}
