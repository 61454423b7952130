/** The builder of one account: defaults, checks and the insert specification it describes. */
module AccountBuilder {
  import opened Collections

  datatype Column =
    | ID | CreatedAt | UpdatedAt | DeletedAt | Name | Notes | Platform | Type | Credentials | Extra
    | ProxyID | ProxyFallbackOriginID | Concurrency | LoadFactor | Priority | RateMultiplier | Status
    | ErrorMessage | LastUsedAt | ExpiresAt | AutoPauseOnExpired | Schedulable | RateLimitedAt
    | RateLimitResetAt | OverloadUntil | TempUnschedulableUntil | TempUnschedulableReason
    | SessionWindowStart | SessionWindowEnd | SessionWindowStatus | ParentAccountID | QuotaDimension
    | Unknown(name: string)

  /** A JSON object, or a nil map. */
  datatype Document = NilMap | Object(members: map<string, string>)

  datatype Value =
    | Time(time: int) | Text(text: string) | Int(number: int) | Float(amount: real) | Bool(flag: bool)
    | Json(document: Document)

  datatype Kind = TimeKind | TextKind | IntKind | FloatKind | BoolKind | JsonKind

  function KindOf(v: Value): Kind {
    match v
    case Time(_) => TimeKind
    case Text(_) => TextKind
    case Int(_) => IntKind
    case Float(_) => FloatKind
    case Bool(_) => BoolKind
    case Json(_) => JsonKind
  }

  function Zero(k: Kind): Value {
    match k
    case TimeKind => Time(0)
    case TextKind => Text("")
    case IntKind => Int(0)
    case FloatKind => Float(0.0)
    case BoolKind => Bool(false)
    case JsonKind => Json(NilMap)
  }

  // ---- The account struct ----

  /** The type of the struct field a column is kept in. */
  function FieldKind(c: Column): Kind
    requires !c.Unknown?
  {
    match c
    case CreatedAt | UpdatedAt | DeletedAt | LastUsedAt | ExpiresAt | RateLimitedAt | RateLimitResetAt => TimeKind
    case OverloadUntil | TempUnschedulableUntil | SessionWindowStart | SessionWindowEnd => TimeKind
    case Name | Notes | Platform | Type | Status | ErrorMessage | TempUnschedulableReason => TextKind
    case SessionWindowStatus | QuotaDimension => TextKind
    case ID | ProxyID | ProxyFallbackOriginID | Concurrency | LoadFactor | Priority | ParentAccountID => IntKind
    case RateMultiplier => FloatKind
    case AutoPauseOnExpired | Schedulable => BoolKind
    case Credentials | Extra => JsonKind
  }

  /** Whether the struct field is a pointer: the nillable columns. */
  predicate Nillable(c: Column) {
    match c
    case DeletedAt | Notes | ProxyID | ProxyFallbackOriginID | LoadFactor | ErrorMessage | LastUsedAt => true
    case ExpiresAt | RateLimitedAt | RateLimitResetAt | OverloadUntil | TempUnschedulableUntil => true
    case TempUnschedulableReason | SessionWindowStart | SessionWindowEnd | SessionWindowStatus => true
    case ParentAccountID => true
    case _ => false
  }

  /** Column values that have been set; each has the type of its struct field. */
  type Fields = map<Column, Value>

  ghost predicate Typed(m: Fields) {
    forall c :: c in m ==> !c.Unknown? && KindOf(m[c]) == FieldKind(c)
  }

  datatype Content = Nil | Pointer(target: Value) | Plain(value: Value)

  /** What a struct holds in one field after the assignments in `m`. */
  function ContentOf(m: Fields, c: Column): (r: Content)
    requires !c.Unknown?
  {
    if Nillable(c) then (if c in m then Pointer(m[c]) else Nil)
    else Plain(if c in m then m[c] else Zero(FieldKind(c)))
  }

  // ---- Defaults ----

  /** The default functions wired at start-up; None where the runtime package was never imported. */
  datatype Runtime = Runtime(
    createdAt: Option<int>, updatedAt: Option<int>, credentials: Option<Document>, extra: Option<Document>)

  /** The columns `defaults` fills in, in its order. */
  const DEFAULTED: seq<Column> := [
    CreatedAt, UpdatedAt, Credentials, Extra, Concurrency, Priority, RateMultiplier, Status,
    AutoPauseOnExpired, Schedulable, QuotaDimension]

  /** The default of a column; None where it has none or the default function is not wired. */
  function DefaultOf(c: Column, rt: Runtime): Option<Value> {
    match c
    case CreatedAt => if rt.createdAt.Some? then Some(Time(rt.createdAt.value)) else None
    case UpdatedAt => if rt.updatedAt.Some? then Some(Time(rt.updatedAt.value)) else None
    case Credentials => if rt.credentials.Some? then Some(Json(rt.credentials.value)) else None
    case Extra => if rt.extra.Some? then Some(Json(rt.extra.value)) else None
    case Concurrency => Some(Int(3))
    case Priority => Some(Int(50))
    case RateMultiplier => Some(Float(1.0))
    case Status => Some(Text("active"))
    case AutoPauseOnExpired => Some(Bool(true))
    case Schedulable => Some(Bool(true))
    case QuotaDimension => Some(Text("global"))
    case _ => None
  }

  /** Fills in the columns that are not set, in order, and stops at the first default that is not wired. */
  function FillIn(m: Fields, columns: seq<Column>, rt: Runtime): (r: Fields)
    ensures forall c :: c in m ==> c in r && r[c] == m[c]
    ensures forall c :: c in r && c !in m ==> DefaultOf(c, rt) == Some(r[c])
    ensures (forall c :: c in columns ==> c in m || DefaultOf(c, rt).Some?) <==> forall c :: c in columns ==> c in r
    decreases |columns|
  {
    if columns == [] then m
    else
      assert columns == [columns[0]] + columns[1..];
      var c := columns[0];
      if c in m then FillIn(m, columns[1..], rt)
      else if DefaultOf(c, rt).None? then m
      else FillIn(m[c := DefaultOf(c, rt).value], columns[1..], rt)
  }

  /** The mutation after `defaults`. */
  function Defaults(m: Fields, rt: Runtime): Fields {
    FillIn(m, DEFAULTED, rt)
  }

  /** Whether `defaults` returns no error. */
  predicate DefaultsWired(m: Fields, rt: Runtime) {
    && (CreatedAt in m || rt.createdAt.Some?)
    && (UpdatedAt in m || rt.updatedAt.Some?)
    && (Credentials in m || rt.credentials.Some?)
    && (Extra in m || rt.extra.Some?)
  }

  // ---- Check ----

  function TextOf(v: Value): string {
    if v.Text? then v.text else ""
  }

  predicate Labelled(s: string, limit: nat) {
    0 < |s| <= limit
  }

  /** The validator of a column; columns without one accept everything. */
  predicate Validates(c: Column, v: Value) {
    match c
    case Name => Labelled(TextOf(v), 100)
    case Platform => Labelled(TextOf(v), 50)
    case Type => Labelled(TextOf(v), 20)
    case Status => |TextOf(v)| <= 20
    case SessionWindowStatus => |TextOf(v)| <= 20
    case QuotaDimension => TextOf(v) == "global" || TextOf(v) == "spark"
    case _ => true
  }

  /** The columns `check` looks at, in its order; only SessionWindowStatus may be missing. */
  const CHECKED: seq<Column> := [
    CreatedAt, UpdatedAt, Name, Platform, Type, Credentials, Extra, Concurrency, Priority, RateMultiplier,
    Status, AutoPauseOnExpired, Schedulable, SessionWindowStatus, QuotaDimension]

  predicate Acceptable(m: Fields, c: Column) {
    if c in m then Validates(c, m[c]) else c == SessionWindowStatus
  }

  /** The first of `columns` that is missing or invalid. */
  function FirstRejected(m: Fields, columns: seq<Column>): (r: Option<Column>)
    ensures r.None? <==> forall c :: c in columns ==> Acceptable(m, c)
    ensures r.Some? ==> exists i :: (0 <= i < |columns| && columns[i] == r.value && !Acceptable(m, r.value)
                                     && forall j :: 0 <= j < i ==> Acceptable(m, columns[j]))
  {
    if columns == [] then None
    else if !Acceptable(m, columns[0]) then
      assert columns[0] in columns;
      Some(columns[0])
    else
      var r := FirstRejected(m, columns[1..]);
      assert columns == [columns[0]] + columns[1..];
      r
  }

  function Check(m: Fields): Option<Column> {
    FirstRejected(m, CHECKED)
  }

  /** What the caller has to set: `name`, `platform` and `type`, and everything set must be valid. */
  ghost predicate Sufficient(m: Fields) {
    && Name in m && Platform in m && Type in m
    && forall c :: c in m ==> Validates(c, m[c])
  }

  /** The columns of the account that must hold a value. */
  predicate Demanded(c: Column) {
    !c.Unknown? && c != ID && !Nillable(c)
  }

  lemma {:induction false} CheckedAreDemanded(i: nat)
    requires i < |CHECKED|
    ensures Demanded(CHECKED[i]) || CHECKED[i] == SessionWindowStatus
  {
  }

  lemma {:induction false} DemandedAreChecked(c: Column)
    requires Demanded(c) || c == SessionWindowStatus
    ensures c in CHECKED
  {
    match c
    case CreatedAt => assert CHECKED[0] == c;
    case UpdatedAt => assert CHECKED[1] == c;
    case Name => assert CHECKED[2] == c;
    case Platform => assert CHECKED[3] == c;
    case Type => assert CHECKED[4] == c;
    case Credentials => assert CHECKED[5] == c;
    case Extra => assert CHECKED[6] == c;
    case Concurrency => assert CHECKED[7] == c;
    case Priority => assert CHECKED[8] == c;
    case RateMultiplier => assert CHECKED[9] == c;
    case Status => assert CHECKED[10] == c;
    case AutoPauseOnExpired => assert CHECKED[11] == c;
    case Schedulable => assert CHECKED[12] == c;
    case SessionWindowStatus => assert CHECKED[13] == c;
    case QuotaDimension => assert CHECKED[14] == c;
  }

  lemma {:induction false} DefaultedColumns(c: Column)
    requires Demanded(c) && c != Name && c != Platform && c != Type
    ensures c in DEFAULTED
  {
    match c
    case CreatedAt => assert DEFAULTED[0] == c;
    case UpdatedAt => assert DEFAULTED[1] == c;
    case Credentials => assert DEFAULTED[2] == c;
    case Extra => assert DEFAULTED[3] == c;
    case Concurrency => assert DEFAULTED[4] == c;
    case Priority => assert DEFAULTED[5] == c;
    case RateMultiplier => assert DEFAULTED[6] == c;
    case Status => assert DEFAULTED[7] == c;
    case AutoPauseOnExpired => assert DEFAULTED[8] == c;
    case Schedulable => assert DEFAULTED[9] == c;
    case QuotaDimension => assert DEFAULTED[10] == c;
  }

  lemma {:induction false} DefaultsAreValid(c: Column, rt: Runtime)
    requires DefaultOf(c, rt).Some?
    ensures Validates(c, DefaultOf(c, rt).value) && Demanded(c)
  {
  }

  lemma {:induction false} WiredDefaults(m: Fields, rt: Runtime, i: nat)
    requires DefaultsWired(m, rt) && i < |DEFAULTED|
    ensures DEFAULTED[i] in m || DefaultOf(DEFAULTED[i], rt).Some?
  {
  }

  lemma {:induction false} DefaultsFill(m: Fields, rt: Runtime)
    requires DefaultsWired(m, rt)
    ensures forall c :: c in DEFAULTED ==> c in Defaults(m, rt)
  {
    hide FillIn, DefaultOf, DefaultsWired, DEFAULTED;
    forall c | c in DEFAULTED ensures c in m || DefaultOf(c, rt).Some? {
      var i :| 0 <= i < |DEFAULTED| && DEFAULTED[i] == c;
      WiredDefaults(m, rt, i);
    }
  }

  /** The defaults that are needed are wired if and only if all columns end up filled. */
  lemma {:induction false} WiredIsComplete(m: Fields, rt: Runtime)
    ensures DefaultsWired(m, rt) <==> forall c :: c in DEFAULTED ==> c in Defaults(m, rt)
  {
    if DefaultsWired(m, rt) {
      DefaultsFill(m, rt);
    } else {
      var i := if CreatedAt !in m && rt.createdAt.None? then 0
               else if UpdatedAt !in m && rt.updatedAt.None? then 1
               else if Credentials !in m && rt.credentials.None? then 2
               else 3;
      var c := DEFAULTED[i];
      assert c in DEFAULTED && c !in m && DefaultOf(c, rt).None?;
      assert c !in Defaults(m, rt);
    }
  }

  /** After `defaults`, `check` passes exactly when the caller's own settings were sufficient. */
  lemma {:induction false} CheckAfterDefaults(m: Fields, rt: Runtime)
    ensures Check(Defaults(m, rt)).None? <==> Sufficient(m) && DefaultsWired(m, rt)
  {
    if Check(Defaults(m, rt)).None? {
      CheckPassed(m, rt);
    }
    if Sufficient(m) && DefaultsWired(m, rt) {
      SufficientPasses(m, rt);
    }
  }

  lemma {:induction false} Passed(m: Fields, c: Column)
    requires Check(m).None? && (Demanded(c) || c == SessionWindowStatus)
    ensures Acceptable(m, c)
  {
    hide FirstRejected, Demanded, Acceptable, CHECKED;
    DemandedAreChecked(c);
  }

  lemma {:induction false} PassedDefault(m: Fields, rt: Runtime, c: Column)
    requires Check(Defaults(m, rt)).None? && Demanded(c)
    ensures c in m || DefaultOf(c, rt).Some?
  {
    hide FillIn, Check, DEFAULTED;
    Passed(Defaults(m, rt), c);
  }

  lemma {:induction false} CheckPassed(m: Fields, rt: Runtime)
    requires Check(Defaults(m, rt)).None?
    ensures Sufficient(m) && DefaultsWired(m, rt)
  {
    hide Defaults, Check;
    var d := Defaults(m, rt);
    forall c | c in m ensures Validates(c, m[c]) {
      hide Validates;
      DefaultsKeep(m, rt, c);
      if Demanded(c) || c == SessionWindowStatus {
        Passed(d, c);
      } else {
        Unvalidated(c, m[c]);
      }
    }
    forall c | Demanded(c) ensures c in m || DefaultOf(c, rt).Some? {
      PassedDefault(m, rt, c);
    }
    assert Demanded(Name) && Demanded(Platform) && Demanded(Type);
    assert Demanded(CreatedAt) && Demanded(UpdatedAt) && Demanded(Credentials) && Demanded(Extra);
  }

  lemma {:induction false} DefaultsKeep(m: Fields, rt: Runtime, c: Column)
    requires c in m
    ensures c in Defaults(m, rt) && Defaults(m, rt)[c] == m[c]
  {
  }

  lemma {:induction false} Unvalidated(c: Column, v: Value)
    requires !Demanded(c) && c != SessionWindowStatus
    ensures Validates(c, v)
  {
  }

  lemma {:induction false} SufficientPasses(m: Fields, rt: Runtime)
    requires Sufficient(m) && DefaultsWired(m, rt)
    ensures Check(Defaults(m, rt)).None?
  {
    hide FillIn, FirstRejected, CHECKED, DEFAULTED;
    var d := Defaults(m, rt);
    DefaultsFill(m, rt);
    forall c | c in CHECKED ensures Acceptable(d, c) {
      var i :| 0 <= i < |CHECKED| && CHECKED[i] == c;
      CheckedAreDemanded(i);
      if Demanded(c) && c != Name && c != Platform && c != Type {
        DefaultedColumns(c);
      }
      if c in d && c !in m {
        DefaultsAreValid(c, rt);
      }
    }
  }

  /** Ignoring the error of `defaults` is harmless: `check` then fails on a column it left unset. */
  lemma {:induction false} UnwiredIsRejected(m: Fields, rt: Runtime)
    requires !DefaultsWired(m, rt)
    ensures Check(Defaults(m, rt)).Some?
  {
    CheckAfterDefaults(m, rt);
  }

  lemma {:induction false} FilledIn(m: Fields, columns: seq<Column>, rt: Runtime)
    requires forall c :: c in columns ==> c in m
    ensures FillIn(m, columns, rt) == m
  {
    if columns != [] {
      FilledIn(m, columns[1..], rt);
    }
  }

  /** A second `defaults`, at whatever later time, changes nothing. */
  lemma {:induction false} DefaultsIdempotent(m: Fields, rt: Runtime, later: Runtime)
    requires DefaultsWired(m, rt)
    ensures Defaults(Defaults(m, rt), later) == Defaults(m, rt)
  {
    hide FillIn, DEFAULTED;
    DefaultsFill(m, rt);
    FilledIn(Defaults(m, rt), DEFAULTED, later);
  }

  // ---- Insert specification ----

  datatype FieldType = TypeTime | TypeString | TypeJSON | TypeInt64 | TypeInt | TypeFloat64 | TypeBool | TypeEnum

  datatype FieldSpec = FieldSpec(column: Column, fieldType: FieldType, value: Value)

  /** The scalar columns in the order `createSpec` sets them. */
  const SETTERS: seq<Column> := [
    CreatedAt, UpdatedAt, DeletedAt, Name, Notes, Platform, Type, Credentials, Extra, ProxyFallbackOriginID,
    Concurrency, LoadFactor, Priority, RateMultiplier, Status, ErrorMessage, LastUsedAt, ExpiresAt,
    AutoPauseOnExpired, Schedulable, RateLimitedAt, RateLimitResetAt, OverloadUntil, TempUnschedulableUntil,
    TempUnschedulableReason, SessionWindowStart, SessionWindowEnd, SessionWindowStatus, QuotaDimension]

  /** The type `createSpec` announces for a column. */
  function SpecType(c: Column): FieldType {
    match c
    case CreatedAt | UpdatedAt | DeletedAt | LastUsedAt | ExpiresAt | RateLimitedAt | RateLimitResetAt => TypeTime
    case OverloadUntil | TempUnschedulableUntil | SessionWindowStart | SessionWindowEnd => TypeTime
    case Name | Notes | Platform | Type | Status | ErrorMessage | TempUnschedulableReason => TypeString
    case SessionWindowStatus => TypeString
    case Credentials | Extra => TypeJSON
    case Concurrency | LoadFactor | Priority => TypeInt
    case RateMultiplier => TypeFloat64
    case AutoPauseOnExpired | Schedulable => TypeBool
    case QuotaDimension => TypeEnum
    case ID | ProxyID | ProxyFallbackOriginID | ParentAccountID => TypeInt64
    case Unknown(_) => TypeString
  }

  /** The announced type is that of the struct field; only identifiers are 64 bits wide by name. */
  lemma {:induction false} SpecTypeExactly(c: Column)
    requires !c.Unknown?
    ensures match FieldKind(c)
      case TimeKind => SpecType(c) == TypeTime
      case TextKind => SpecType(c) == if c == QuotaDimension then TypeEnum else TypeString
      case IntKind => SpecType(c) == if c in {Concurrency, LoadFactor, Priority} then TypeInt else TypeInt64
      case FloatKind => SpecType(c) == TypeFloat64
      case BoolKind => SpecType(c) == TypeBool
      case JsonKind => SpecType(c) == TypeJSON
  {
  }

  /** A many-to-one edge writes its foreign key into a column of the inserted row. */
  datatype EdgeSpec = EdgeSpec(column: Column, target: Value)

  datatype Spec = Spec(fields: seq<FieldSpec>, edges: seq<EdgeSpec>)

  function FieldSpecs(m: Fields, setters: seq<Column>): seq<FieldSpec> {
    if setters == [] then []
    else
      var c := setters[0];
      (if c in m then [FieldSpec(c, SpecType(c), m[c])] else []) + FieldSpecs(m, setters[1..])
  }

  function EdgeTo(m: Fields, c: Column): seq<EdgeSpec> {
    if c in m then [EdgeSpec(c, m[c])] else []
  }

  function SpecOf(m: Fields): Spec {
    Spec(FieldSpecs(m, SETTERS), EdgeTo(m, ProxyID) + EdgeTo(m, ParentAccountID))
  }

  function NodeFields(m: Fields, setters: seq<Column>): (r: Fields)
    ensures forall c :: c in r <==> c in m && c in setters
    ensures forall c :: c in r ==> r[c] == m[c]
  {
    if setters == [] then map[]
    else
      assert setters == [setters[0]] + setters[1..];
      var c := setters[0];
      var rest := NodeFields(m, setters[1..]);
      if c in m then rest[c := m[c]] else rest
  }

  /** The struct `createSpec` returns beside the specification, before an identifier is known. */
  function NodeOf(m: Fields): Fields {
    var node := NodeFields(m, SETTERS);
    var node := if ProxyID in m then node[ProxyID := m[ProxyID]] else node;
    if ParentAccountID in m then node[ParentAccountID := m[ParentAccountID]] else node
  }

  /** Every column of the account but the identifier and the two edges has a setter. */
  lemma {:induction false} HasSetter(c: Column)
    requires !c.Unknown? && c != ID && c != ProxyID && c != ParentAccountID
    ensures c in SETTERS
  {
    match c
    case CreatedAt => assert SETTERS[0] == c;
    case UpdatedAt => assert SETTERS[1] == c;
    case DeletedAt => assert SETTERS[2] == c;
    case Name => assert SETTERS[3] == c;
    case Notes => assert SETTERS[4] == c;
    case Platform => assert SETTERS[5] == c;
    case Type => assert SETTERS[6] == c;
    case Credentials => assert SETTERS[7] == c;
    case Extra => assert SETTERS[8] == c;
    case ProxyFallbackOriginID => assert SETTERS[9] == c;
    case Concurrency => assert SETTERS[10] == c;
    case LoadFactor => assert SETTERS[11] == c;
    case Priority => assert SETTERS[12] == c;
    case RateMultiplier => assert SETTERS[13] == c;
    case Status => assert SETTERS[14] == c;
    case ErrorMessage => assert SETTERS[15] == c;
    case LastUsedAt => assert SETTERS[16] == c;
    case ExpiresAt => assert SETTERS[17] == c;
    case AutoPauseOnExpired => assert SETTERS[18] == c;
    case Schedulable => assert SETTERS[19] == c;
    case RateLimitedAt => assert SETTERS[20] == c;
    case RateLimitResetAt => assert SETTERS[21] == c;
    case OverloadUntil => assert SETTERS[22] == c;
    case TempUnschedulableUntil => assert SETTERS[23] == c;
    case TempUnschedulableReason => assert SETTERS[24] == c;
    case SessionWindowStart => assert SETTERS[25] == c;
    case SessionWindowEnd => assert SETTERS[26] == c;
    case SessionWindowStatus => assert SETTERS[27] == c;
    case QuotaDimension => assert SETTERS[28] == c;
  }

  /** The node holds exactly what the mutation sets, apart from the identifier. */
  lemma {:induction false} NodeMirrorsMutation(m: Fields, c: Column)
    requires Typed(m) && c != ID
    ensures c in NodeOf(m) <==> c in m
    ensures c in m ==> NodeOf(m)[c] == m[c]
  {
    hide SETTERS, FieldKind, KindOf, NodeFields;
    var scalars := NodeFields(m, SETTERS);
    assert c in NodeOf(m) <==> c in scalars || (c in m && (c == ProxyID || c == ParentAccountID));
    hide NodeOf;
    if !c.Unknown? && c != ProxyID && c != ParentAccountID {
      HasSetter(c);
    }
  }
}
