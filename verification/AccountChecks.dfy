/** The defaults and checks of an account, said column by column as the schema states them. */
module AccountChecks {
  import opened Collections
  import opened AccountBuilder

  // ---- The schema's conditions, column by column ----

  /** What the schema asks of a column that is checked. */
  ghost predicate Fine(m: Fields, c: Column) {
    match c
    case Name => c in m && m[c].Text? && 1 <= |m[c].text| <= 100
    case Platform => c in m && m[c].Text? && 1 <= |m[c].text| <= 50
    case Type => c in m && m[c].Text? && 1 <= |m[c].text| <= 20
    case Status => c in m && m[c].Text? && |m[c].text| <= 20
    case SessionWindowStatus => c in m ==> m[c].Text? && |m[c].text| <= 20
    case QuotaDimension => c in m && (m[c] == Text("global") || m[c] == Text("spark"))
    case _ => c in m
  }

  /** When `check` comes to a column; None for the columns it never looks at. */
  ghost function Turn(c: Column): Option<nat> {
    match c
    case CreatedAt => Some(0)
    case UpdatedAt => Some(1)
    case Name => Some(2)
    case Platform => Some(3)
    case Type => Some(4)
    case Credentials => Some(5)
    case Extra => Some(6)
    case Concurrency => Some(7)
    case Priority => Some(8)
    case RateMultiplier => Some(9)
    case Status => Some(10)
    case AutoPauseOnExpired => Some(11)
    case Schedulable => Some(12)
    case SessionWindowStatus => Some(13)
    case QuotaDimension => Some(14)
    case _ => None
  }

  lemma {:induction false} TurnIsPosition(c: Column)
    requires Turn(c).Some?
    ensures Turn(c).value < |CHECKED| && CHECKED[Turn(c).value] == c
  {
  }

  lemma {:induction false} PositionIsTurn(i: nat)
    requires i < |CHECKED|
    ensures Turn(CHECKED[i]) == Some(i)
  {
  }

  lemma {:induction false} AcceptableIsFine(m: Fields, c: Column)
    requires Typed(m) && Turn(c).Some?
    ensures Acceptable(m, c) <==> Fine(m, c)
  {
    if c in m {
      assert KindOf(m[c]) == FieldKind(c);
    }
  }

  /**
   * On fields of their columns' types the check passes if and only if every checked column is fine,
   * and else reports the first in its order that is not.
   */
  lemma {:induction false} CheckExactly(m: Fields)
    requires Typed(m)
    ensures Check(m).None? <==> forall c :: Turn(c).Some? ==> Fine(m, c)
    ensures forall c :: Check(m) == Some(c) ==>
      && Turn(c).Some? && !Fine(m, c)
      && forall d :: Turn(d).Some? && Turn(d).value < Turn(c).value ==> Fine(m, d)
  {
    hide Acceptable, Fine, Turn, FirstRejected, CHECKED, Typed;
    forall c | Turn(c).Some? ensures c in CHECKED && (Acceptable(m, c) <==> Fine(m, c)) {
      TurnIsPosition(c);
      AcceptableIsFine(m, c);
    }
    forall c | c in CHECKED ensures Turn(c).Some? {
      var i :| 0 <= i < |CHECKED| && CHECKED[i] == c;
      PositionIsTurn(i);
    }
    if Check(m).Some? {
      var c := Check(m).value;
      var i :| 0 <= i < |CHECKED| && CHECKED[i] == c && !Acceptable(m, c)
        && forall j :: 0 <= j < i ==> Acceptable(m, CHECKED[j]);
      PositionIsTurn(i);
      forall d | Turn(d).Some? && Turn(d).value < i ensures Fine(m, d) {
        TurnIsPosition(d);
      }
    }
  }

  /** What a column holds after `defaults`, if `m` was set before. */
  ghost predicate CompletedAt(m: Fields, rt: Runtime, d: Fields, c: Column) {
    if c in m then c in d && d[c] == m[c]
    else
      match c
      case CreatedAt => rt.createdAt.Some? && c in d && d[c] == Time(rt.createdAt.value)
      case UpdatedAt => rt.updatedAt.Some? && c in d && d[c] == Time(rt.updatedAt.value)
      case Credentials => rt.credentials.Some? && c in d && d[c] == Json(rt.credentials.value)
      case Extra => rt.extra.Some? && c in d && d[c] == Json(rt.extra.value)
      case Concurrency => c in d && d[c] == Int(3)
      case Priority => c in d && d[c] == Int(50)
      case RateMultiplier => c in d && d[c] == Float(1.0)
      case Status => c in d && d[c] == Text("active")
      case AutoPauseOnExpired | Schedulable => c in d && d[c] == Bool(true)
      case QuotaDimension => c in d && d[c] == Text("global")
      case _ => c !in d
  }

  ghost predicate Completed(m: Fields, rt: Runtime, d: Fields) {
    forall c :: CompletedAt(m, rt, d, c)
  }

  lemma {:induction false} ColumnCompleted(m: Fields, rt: Runtime, d: Fields, c: Column)
    requires DefaultsWired(m, rt)
    ensures CompletedAt(m, rt, d, c) <==>
      if c in m then c in d && d[c] == m[c]
      else if DefaultOf(c, rt).Some? then c in d && d[c] == DefaultOf(c, rt).value
      else c !in d
  {
  }

  lemma {:induction false} DefaultIsListed(c: Column, rt: Runtime)
    requires DefaultOf(c, rt).Some?
    ensures c in DEFAULTED
  {
    DefaultsAreValid(c, rt);
    DefaultedColumns(c);
  }

  lemma {:induction false} NotWired(m: Fields, rt: Runtime, d: Fields)
    requires !DefaultsWired(m, rt)
    ensures !Completed(m, rt, d)
  {
    var c := if CreatedAt !in m && rt.createdAt.None? then CreatedAt
             else if UpdatedAt !in m && rt.updatedAt.None? then UpdatedAt
             else if Credentials !in m && rt.credentials.None? then Credentials
             else Extra;
    assert !CompletedAt(m, rt, d, c);
  }

  /**
   * `defaults` leaves every column set before alone, gives the others what the schema declares for
   * them and adds nothing else; it does so if and only if the default functions it needs are wired.
   */
  lemma {:induction false} DefaultsExactly(m: Fields, rt: Runtime, d: Fields)
    ensures DefaultsWired(m, rt) && d == Defaults(m, rt) <==> Completed(m, rt, d)
  {
    hide DefaultsWired, DefaultOf, CompletedAt, DEFAULTED;
    if DefaultsWired(m, rt) {
      var e := Defaults(m, rt);
      DefaultsFill(m, rt);
      forall c: Column
        ensures CompletedAt(m, rt, e, c)
        ensures CompletedAt(m, rt, d, c) <==> (c in d <==> c in e) && (c in e ==> d[c] == e[c])
      {
        ColumnCompleted(m, rt, e, c);
        ColumnCompleted(m, rt, d, c);
        if DefaultOf(c, rt).Some? {
          DefaultIsListed(c, rt);
        }
      }
      SameFields(d, e);
    } else {
      NotWired(m, rt, d);
    }
  }

  lemma {:induction false} SameFields(d: Fields, e: Fields)
    ensures d == e <==> forall c :: (c in d <==> c in e) && (c in e ==> d[c] == e[c])
  {
  }

  /**
   * The check after `defaults` passes if and only if the caller set a fine name, platform and type,
   * whatever else was set is fine, and the default functions needed are wired.
   */
  lemma {:induction false} CheckAfterDefaultsExactly(m: Fields, rt: Runtime)
    requires Typed(m)
    ensures Check(Defaults(m, rt)).None? <==> FineBefore(m) && WiredFor(m, rt)
  {
    CheckAfterDefaults(m, rt);
    hide Check, Defaults, Typed;
    if Sufficient(m) {
      forall c | Turn(c).Some? && (c in m || c == Name || c == Platform || c == Type) ensures Fine(m, c) {
        AcceptableIsFine(m, c);
      }
    }
    if FineBefore(m) {
      forall c | c in m ensures Validates(c, m[c]) {
        if Turn(c).Some? {
          AcceptableIsFine(m, c);
        }
      }
    }
  }

  /** What the caller has to set is set, and all that is set is fine. */
  ghost predicate FineBefore(m: Fields) {
    forall c :: Turn(c).Some? && (c in m || c == Name || c == Platform || c == Type) ==> Fine(m, c)
  }

  /** The default functions for the columns the caller left out are there. */
  ghost predicate WiredFor(m: Fields, rt: Runtime) {
    && (CreatedAt !in m ==> rt.createdAt.Some?) && (UpdatedAt !in m ==> rt.updatedAt.Some?)
    && (Credentials !in m ==> rt.credentials.Some?) && (Extra !in m ==> rt.extra.Some?)
  }
}
