/** The gate: the exception index, the matching loop and the exit code. */
module AuditGate {
  import opened Collections
  import opened AuditText
  import opened ExceptionFile
  import opened ExceptionText
  import opened AuditReport
  import opened ReportReading
  import opened ReportGenerator

  datatype Key = Key(package: string, advisory: string)

  /** An indexed exception. */
  datatype Exemption = Exemption(severity: string, expires: int)

  // ---- Normalisation ----

  function NormalizeText(py: Runtime, s: string): string {
    py.lower(Strip(s))
  }

  const REQUIRED_FIELDS := ["package", "advisory", "severity", "mitigation", "expires_on"]

  predicate HasFields(exc: Record) {
    forall i :: 0 <= i < |REQUIRED_FIELDS| ==> REQUIRED_FIELDS[i] in exc && exc[REQUIRED_FIELDS[i]] != ""
  }

  /** The index entry of a record; None where the script reports an error and goes on. */
  function Entry(py: Runtime, exc: Record): Option<(Key, Exemption)> {
    if !HasFields(exc) then None
    else
      assert REQUIRED_FIELDS[0] == "package" && REQUIRED_FIELDS[1] == "advisory" && REQUIRED_FIELDS[2] == "severity"
          && REQUIRED_FIELDS[4] == "expires_on";
      var severity := NormalizeText(py, exc["severity"]);
      var package, advisory := Strip(exc["package"]), NormalizeText(py, exc["advisory"]);
      var expires := py.date(exc["expires_on"]);
      if expires.None? || package == "" || advisory == "" then None
      else Some((Key(package, advisory), Exemption(severity, expires.value)))
  }

  datatype Class = Raises | Low | NoAdvisory | High(key: Key, severity: string)

  /** What the matching loop makes of a finding. */
  function Classify(py: Runtime, f: Finding): Class {
    if Truthy(f.severity) && !f.severity.Str? then Raises
    else
      var sev := NormalizeText(py, if f.severity.Str? then f.severity.s else "");
      if !(sev == "high" || sev == "critical") || !Truthy(f.name) then Low
      else
        var advisory := if f.advisory == Null then "" else NormalizeText(py, py.Show(f.advisory));
        if advisory == "" then NoAdvisory else High(Key(Strip(py.Show(f.name)), advisory), sev)
  }

  // ---- What the gate promises ----

  type Entries = seq<Option<(Key, Exemption)>>

  function EntriesOf(py: Runtime, excs: seq<Record>): (es: Entries)
    ensures |es| == |excs|
  {
    seq(|excs|, i requires 0 <= i < |excs| => Entry(py, excs[i]))
  }

  function ClassesOf(py: Runtime, fs: seq<Finding>): (cs: seq<Class>)
    ensures |cs| == |fs|
  {
    seq(|fs|, i requires 0 <= i < |fs| => Classify(py, fs[i]))
  }

  /** Every exception is well-formed and no two have the same package and advisory. */
  ghost predicate GoodEntries(es: Entries) {
    && (forall i :: 0 <= i < |es| ==> es[i].Some?)
    && (forall i, j :: 0 <= i < j < |es| ==> es[i].value.0 != es[j].value.0)
  }

  /** A current exception for this package and advisory accepts the severity. */
  ghost predicate Covered(es: Entries, key: Key, severity: string, today: int) {
    exists i :: 0 <= i < |es| && es[i].Some? && es[i].value.0 == key && Accepts(es[i].value.1, severity, today)
  }

  predicate Accepts(e: Exemption, severity: string, today: int) {
    today <= e.expires && (e.severity == "" || e.severity == severity)
  }

  ghost predicate Occurs(cs: seq<Class>, key: Key) {
    exists i :: 0 <= i < |cs| && cs[i].High? && cs[i].key == key
  }

  /** The severity of the first high or critical occurrence of a key. */
  ghost function FirstSeverity(cs: seq<Class>, key: Key): string {
    if cs == [] then ""
    else
      var n := |cs| - 1;
      if Occurs(cs[..n], key) then FirstSeverity(cs[..n], key)
      else if cs[n].High? then cs[n].severity
      else ""
  }

  ghost predicate Readable(cs: seq<Class>) {
    forall i :: 0 <= i < |cs| ==> cs[i] != Raises && cs[i] != NoAdvisory
  }

  /** The verdict: each key that occurs is covered for the severity of its first occurrence. */
  ghost predicate Passes(es: Entries, cs: seq<Class>, today: int) {
    && GoodEntries(es)
    && Readable(cs)
    && forall i :: 0 <= i < |cs| && cs[i].High? ==> Covered(es, cs[i].key, FirstSeverity(cs, cs[i].key), today)
  }

  // ---- The index ----

  ghost predicate Indexed(index: map<Key, Exemption>, es: Entries) {
    && (forall k :: k in index ==> exists i :: 0 <= i < |es| && es[i] == Some((k, index[k])))
    && (forall i :: 0 <= i < |es| && es[i].Some? ==> es[i].value.0 in index)
  }

  method BuildIndex(py: Runtime, excs: seq<Record>) returns (index: map<Key, Exemption>, errors: nat)
    ensures Indexed(index, EntriesOf(py, excs))
    ensures errors == 0 <==> GoodEntries(EntriesOf(py, excs))
  {
    hide *;
    index, errors := map[], 0;
    NothingIndexed();
    ghost var es := EntriesOf(py, excs);
    for i := 0 to |excs|
      invariant Indexed(index, es[..i])
      invariant errors == 0 <==> GoodEntries(es[..i])
    {
      var e := Entry(py, excs[i]);
      IndexNext(index, es[..i], e);
      EntryAt(py, excs, i);
      if e.None? {
        errors := errors + 1;
        continue;
      }
      var key := e.value.0;
      if key in index {
        errors := errors + 1;
        continue;
      }
      index := index[key := e.value.1];
    }
    assert es[..|excs|] == es;
  }

  lemma {:induction false} NothingIndexed()
    ensures Indexed(map[], []) && GoodEntries([])
  {
  }

  lemma {:induction false} EntryAt(py: Runtime, excs: seq<Record>, i: nat)
    requires i < |excs|
    ensures EntriesOf(py, excs)[..i + 1] == EntriesOf(py, excs)[..i] + [Entry(py, excs[i])]
  {
    hide Entry;
  }

  lemma {:induction false} IndexNext(index: map<Key, Exemption>, es: Entries, e: Option<(Key, Exemption)>)
    requires Indexed(index, es)
    ensures e.None? || e.value.0 in index ==> Indexed(index, es + [e]) && !GoodEntries(es + [e])
    ensures e.Some? && e.value.0 !in index ==>
      Indexed(index[e.value.0 := e.value.1], es + [e]) && (GoodEntries(es + [e]) <==> GoodEntries(es))
  {
    var es' := es + [e];
    assert forall i :: 0 <= i < |es| ==> es'[i] == es[i];
    assert es'[|es|] == e;
    if e.Some? && e.value.0 in index {
      var i :| 0 <= i < |es| && es[i] == Some((e.value.0, index[e.value.0]));
      assert es'[i].value.0 == es'[|es|].value.0;
    }
    if e.Some? && e.value.0 !in index {
      assert forall i :: 0 <= i < |es| && es[i].Some? ==> es[i].value.0 != e.value.0;
      if GoodEntries(es') {
        assert forall i :: 0 <= i < |es| ==> es'[i].Some?;
      }
    }
  }

  /** With distinct keys the index decides coverage. */
  lemma {:induction false} IndexDecides(index: map<Key, Exemption>, es: Entries, key: Key, severity: string, today: int)
    requires Indexed(index, es) && GoodEntries(es)
    ensures Covered(es, key, severity, today) <==> key in index && Accepts(index[key], severity, today)
  {
    if key in index {
      var i :| 0 <= i < |es| && es[i] == Some((key, index[key]));
      if Covered(es, key, severity, today) {
        var j :| 0 <= j < |es| && es[j].Some? && es[j].value.0 == key && Accepts(es[j].value.1, severity, today);
        assert i == j;
      }
    }
  }

  // ---- The matching loop ----

  /** Position `i` is the first occurrence of its key. */
  ghost predicate First(cs: seq<Class>, i: nat)
    requires i < |cs|
  {
    cs[i].High? && !Occurs(cs[..i], cs[i].key)
  }

  /** No first occurrence so far was rejected. */
  ghost predicate Accepted(index: map<Key, Exemption>, cs: seq<Class>, today: int, upto: nat)
    requires upto <= |cs|
  {
    && Readable(cs[..upto])
    && forall i :: 0 <= i < upto && First(cs, i) ==>
         cs[i].key in index && Accepts(index[cs[i].key], cs[i].severity, today)
  }

  method CheckFindings(py: Runtime, fs: seq<Finding>, index: map<Key, Exemption>, today: int)
    returns (raised: bool, errors: nat)
    ensures (!raised && errors == 0) <==> Accepted(index, ClassesOf(py, fs), today, |fs|)
  {
    hide Classify;
    raised, errors := false, 0;
    var seen: set<Key> := {};
    ghost var cs := ClassesOf(py, fs);
    for i := 0 to |fs|
      invariant forall k :: k in seen <==> Occurs(cs[..i], k)
      invariant errors == 0 <==> Accepted(index, cs, today, i)
    {
      OccursNext(cs, i);
      AcceptedNext(index, cs, today, i);
      match Classify(py, fs[i])
      case Raises =>
        RaisedLater(index, cs, today, i);
        return true, errors;
      case Low =>
      case NoAdvisory =>
        errors := errors + 1;
      case High(key, sev) =>
        if key in seen {
          continue;
        }
        seen := seen + {key};
        if key !in index {
          errors := errors + 1;
          continue;
        }
        if index[key].severity != "" && index[key].severity != sev {
          errors := errors + 1;
        }
        if index[key].expires < today {
          errors := errors + 1;
        }
    }
    assert cs[..|fs|] == cs;
  }

  lemma {:induction false} OccursNext(cs: seq<Class>, i: nat)
    requires i < |cs|
    ensures forall k :: Occurs(cs[..i + 1], k) <==> Occurs(cs[..i], k) || (cs[i].High? && cs[i].key == k)
  {
    forall k ensures Occurs(cs[..i + 1], k) <==> Occurs(cs[..i], k) || (cs[i].High? && cs[i].key == k) {
      if Occurs(cs[..i], k) {
        var j :| 0 <= j < i && cs[..i][j].High? && cs[..i][j].key == k;
        assert cs[..i + 1][j].key == k;
      }
      if cs[i].High? && cs[i].key == k {
        assert cs[..i + 1][i].key == k;
      }
      if Occurs(cs[..i + 1], k) {
        var j :| 0 <= j < i + 1 && cs[..i + 1][j].High? && cs[..i + 1][j].key == k;
        assert j < i ==> cs[..i][j].key == k;
      }
    }
  }

  lemma {:induction false} AcceptedNext(index: map<Key, Exemption>, cs: seq<Class>, today: int, i: nat)
    requires i < |cs|
    ensures Accepted(index, cs, today, i + 1)
       <==> Accepted(index, cs, today, i) && cs[i] != Raises && cs[i] != NoAdvisory
            && (First(cs, i) ==> cs[i].key in index && Accepts(index[cs[i].key], cs[i].severity, today))
  {
    assert Readable(cs[..i + 1]) <==> Readable(cs[..i]) && cs[i] != Raises && cs[i] != NoAdvisory by {
      assert cs[..i + 1] == cs[..i] + [cs[i]];
      assert cs[..i + 1][i] == cs[i];
      assert forall j :: 0 <= j < i ==> cs[..i + 1][j] == cs[..i][j];
    }
  }

  lemma {:induction false} RaisedLater(index: map<Key, Exemption>, cs: seq<Class>, today: int, i: nat)
    requires i < |cs| && cs[i] == Raises
    ensures !Accepted(index, cs, today, |cs|)
  {
    assert cs[..|cs|][i] == Raises;
  }

  /** Checking first occurrences against the index decides the verdict. */
  lemma {:induction false} AcceptedIsPasses(index: map<Key, Exemption>, es: Entries, cs: seq<Class>, today: int)
    requires Indexed(index, es) && GoodEntries(es)
    ensures Accepted(index, cs, today, |cs|) <==> Passes(es, cs, today)
  {
    hide GoodEntries, Indexed, Covered;
    assert cs[..|cs|] == cs;
    forall i | 0 <= i < |cs| && cs[i].High? ensures exists f ::
      0 <= f < |cs| && First(cs, f) && cs[f].key == cs[i].key && cs[f].severity == FirstSeverity(cs, cs[i].key)
    {
      var f := FirstOf(cs, cs[i].key, i);
    }
    forall f | 0 <= f < |cs| && First(cs, f) ensures cs[f].severity == FirstSeverity(cs, cs[f].key) {
      FirstIs(cs, f);
    }
    forall i | 0 <= i < |cs| && cs[i].High? ensures Covered(es, cs[i].key, FirstSeverity(cs, cs[i].key), today)
      <==> cs[i].key in index && Accepts(index[cs[i].key], FirstSeverity(cs, cs[i].key), today)
    {
      IndexDecides(index, es, cs[i].key, FirstSeverity(cs, cs[i].key), today);
    }
  }

  lemma {:induction false} VerdictOf(index: map<Key, Exemption>, es: Entries, cs: seq<Class>, today: int)
    requires Indexed(index, es)
    ensures GoodEntries(es) && Accepted(index, cs, today, |cs|) <==> Passes(es, cs, today)
  {
    if GoodEntries(es) {
      AcceptedIsPasses(index, es, cs, today);
    }
  }

  lemma {:induction false} FirstIs(cs: seq<Class>, f: nat)
    requires f < |cs| && First(cs, f)
    ensures FirstSeverity(cs, cs[f].key) == cs[f].severity
  {
    var n := |cs| - 1;
    if f < n {
      assert cs[..n][..f] == cs[..f];
      assert cs[..n][f] == cs[f];
      FirstIs(cs[..n], f);
    }
  }

  lemma {:induction false} FirstOf(cs: seq<Class>, key: Key, i: nat) returns (f: nat)
    requires i < |cs| && cs[i].High? && cs[i].key == key
    ensures f <= i && First(cs, f) && cs[f].key == key && cs[f].severity == FirstSeverity(cs, key)
    decreases i
  {
    if Occurs(cs[..i], key) {
      var j :| 0 <= j < i && cs[..i][j].High? && cs[..i][j].key == key;
      f := FirstOf(cs, key, j);
    } else {
      f := i;
      FirstIs(cs, f);
    }
  }

  // ---- The verdict on records and findings ----

  /** All five fields are there, the date can be read and package and advisory are not blank. */
  ghost predicate GoodRecord(py: Runtime, exc: Record) {
    && "package" in exc && exc["package"] != "" && "advisory" in exc && exc["advisory"] != ""
    && "severity" in exc && exc["severity"] != "" && "mitigation" in exc && exc["mitigation"] != ""
    && "expires_on" in exc && exc["expires_on"] != ""
    && py.date(exc["expires_on"]).Some?
    && Strip(exc["package"]) != "" && py.lower(Strip(exc["advisory"])) != ""
  }

  /** A good record is for a package, compared without padding, and an advisory, in any case. */
  ghost predicate IsFor(py: Runtime, exc: Record, package: string, advisory: string) {
    && "package" in exc && Strip(exc["package"]) == package
    && "advisory" in exc && py.lower(Strip(exc["advisory"])) == advisory
  }

  ghost predicate GoodRecords(py: Runtime, excs: seq<Record>) {
    && (forall i :: 0 <= i < |excs| ==> GoodRecord(py, excs[i]))
    && (forall i, j, p, a :: 0 <= i < j < |excs| && IsFor(py, excs[i], p, a) ==> !IsFor(py, excs[j], p, a))
  }

  /** A severity that is neither text nor false cannot be compared. */
  ghost predicate Incomparable(f: Finding) {
    !f.severity.Str? && Truthy(f.severity)
  }

  function SeverityOf(py: Runtime, f: Finding): string {
    py.lower(Strip(match f.severity case Str(s) => s case _ => ""))
  }

  ghost predicate Serious(py: Runtime, f: Finding) {
    (SeverityOf(py, f) == "high" || SeverityOf(py, f) == "critical") && Truthy(f.name)
  }

  function PackageOf(py: Runtime, f: Finding): string {
    Strip(match f.name case Str(s) => s case _ => py.show(f.name))
  }

  function AdvisoryOf(py: Runtime, f: Finding): string {
    match f.advisory
    case Null => ""
    case Str(s) => py.lower(Strip(s))
    case _ => py.lower(Strip(py.show(f.advisory)))
  }

  ghost predicate SameIssue(py: Runtime, f: Finding, g: Finding) {
    Serious(py, f) && Serious(py, g) && PackageOf(py, f) == PackageOf(py, g) && AdvisoryOf(py, f) == AdvisoryOf(py, g)
  }

  /** The first serious finding for the package and advisory of finding `i`. */
  ghost predicate FirstFor(py: Runtime, fs: seq<Finding>, i: nat, first: nat)
    requires i < |fs|
  {
    && first < |fs| && SameIssue(py, fs[first], fs[i])
    && forall j :: 0 <= j < first ==> !SameIssue(py, fs[j], fs[i])
  }

  /** A record excuses a package and advisory at a severity, today. */
  ghost predicate Excuses(py: Runtime, exc: Record, package: string, advisory: string, severity: string, today: int) {
    && GoodRecord(py, exc) && IsFor(py, exc, package, advisory)
    && today <= py.date(exc["expires_on"]).value
    && (py.lower(Strip(exc["severity"])) == "" || py.lower(Strip(exc["severity"])) == severity)
  }

  /** Some record excuses the package and advisory of `f` at that severity. */
  ghost predicate Excused(py: Runtime, excs: seq<Record>, f: Finding, severity: string, today: int) {
    exists r :: 0 <= r < |excs| && Excuses(py, excs[r], PackageOf(py, f), AdvisoryOf(py, f), severity, today)
  }

  /** Each serious finding has an advisory and is excused at the severity of the first finding for it. */
  ghost predicate AllExcused(py: Runtime, excs: seq<Record>, fs: seq<Finding>, today: int) {
    forall i :: 0 <= i < |fs| && Serious(py, fs[i]) ==>
      && AdvisoryOf(py, fs[i]) != ""
      && FirstExcused(py, excs, fs, i, today)
  }

  ghost predicate FirstExcused(py: Runtime, excs: seq<Record>, fs: seq<Finding>, i: nat, today: int)
    requires i < |fs|
  {
    exists first: nat :: FirstFor(py, fs, i, first) && Excused(py, excs, fs[i], SeverityOf(py, fs[first]), today)
  }

  ghost predicate Verdict(py: Runtime, excs: seq<Record>, fs: seq<Finding>, today: int) {
    && GoodRecords(py, excs)
    && (forall i :: 0 <= i < |fs| ==> !Incomparable(fs[i]))
    && AllExcused(py, excs, fs, today)
  }

  lemma {:induction false} EntryExactly(py: Runtime, exc: Record)
    ensures Entry(py, exc).Some? <==> GoodRecord(py, exc)
    ensures GoodRecord(py, exc) ==> Entry(py, exc) == Some(
      (Key(Strip(exc["package"]), py.lower(Strip(exc["advisory"]))),
       Exemption(py.lower(Strip(exc["severity"])), py.date(exc["expires_on"]).value)))
  {
    hide Strip;
    assert REQUIRED_FIELDS[0] == "package" && REQUIRED_FIELDS[1] == "advisory" && REQUIRED_FIELDS[2] == "severity"
        && REQUIRED_FIELDS[3] == "mitigation" && REQUIRED_FIELDS[4] == "expires_on" && |REQUIRED_FIELDS| == 5;
  }

  lemma {:induction false} ClassExactly(py: Runtime, f: Finding)
    ensures Classify(py, f).Raises? <==> Incomparable(f)
    ensures !Incomparable(f) && !Serious(py, f) ==> Classify(py, f) == Low
    ensures !Incomparable(f) && Serious(py, f) ==>
      Classify(py, f)
      == if AdvisoryOf(py, f) == "" then NoAdvisory
         else High(Key(PackageOf(py, f), AdvisoryOf(py, f)), SeverityOf(py, f))
  {
    hide Strip;
  }

  lemma {:induction false} RecordsExactly(py: Runtime, excs: seq<Record>)
    ensures GoodEntries(EntriesOf(py, excs)) <==> GoodRecords(py, excs)
  {
    hide Entry, Strip, GoodRecord;
    var es := EntriesOf(py, excs);
    forall i | 0 <= i < |excs|
      ensures es[i].Some? <==> GoodRecord(py, excs[i])
      ensures es[i].Some? ==> forall p, a :: IsFor(py, excs[i], p, a) <==> es[i].value.0 == Key(p, a)
    {
      RecordIsFor(py, excs[i]);
    }
    if GoodEntries(es) {
      assert forall i :: 0 <= i < |excs| ==> es[i].Some?;
    }
    if GoodRecords(py, excs) {
      assert forall i :: 0 <= i < |excs| ==> GoodRecord(py, excs[i]);
      forall i, j | 0 <= i < j < |es| ensures es[i].value.0 != es[j].value.0 {
        assert IsFor(py, excs[i], es[i].value.0.package, es[i].value.0.advisory);
      }
    }
  }

  lemma {:induction false} RecordIsFor(py: Runtime, exc: Record)
    ensures Entry(py, exc).Some? <==> GoodRecord(py, exc)
    ensures GoodRecord(py, exc) ==> forall p, a :: IsFor(py, exc, p, a) <==> Entry(py, exc).value.0 == Key(p, a)
  {
    EntryExactly(py, exc);
    hide Strip, Entry;
  }

  lemma {:induction false} CoveredExactly(py: Runtime, excs: seq<Record>, f: Finding, severity: string,
                                          today: int)
    ensures Covered(EntriesOf(py, excs), Key(PackageOf(py, f), AdvisoryOf(py, f)), severity, today)
       <==> Excused(py, excs, f, severity, today)
  {
    hide Strip, Excuses, Entry, PackageOf, AdvisoryOf;
    var es, p, a := EntriesOf(py, excs), PackageOf(py, f), AdvisoryOf(py, f);
    forall r | 0 <= r < |excs|
      ensures es[r].Some? && es[r].value.0 == Key(p, a) && Accepts(es[r].value.1, severity, today)
         <==> Excuses(py, excs[r], p, a, severity, today)
    {
      RecordExcuses(py, excs[r], p, a, severity, today);
    }
  }

  lemma {:induction false} RecordExcuses(py: Runtime, exc: Record, p: string, a: string, severity: string, today: int)
    ensures Excuses(py, exc, p, a, severity, today)
       <==> (var e := Entry(py, exc); e.Some? && e.value.0 == Key(p, a) && Accepts(e.value.1, severity, today))
  {
    EntryExactly(py, exc);
    hide Strip, Entry;
  }

  lemma {:induction false} SameKey(py: Runtime, f: Finding, g: Finding)
    requires !Incomparable(f) && !Incomparable(g) && Classify(py, g).High?
    ensures SameIssue(py, f, g) <==> Classify(py, f).High? && Classify(py, f).key == Classify(py, g).key
    ensures Serious(py, g) && AdvisoryOf(py, g) != ""
    ensures Classify(py, g).key == Key(PackageOf(py, g), AdvisoryOf(py, g))
    ensures Classify(py, g).severity == SeverityOf(py, g)
  {
    ClassExactly(py, f);
    ClassExactly(py, g);
    hide Classify, Strip, SeverityOf, PackageOf, AdvisoryOf;
  }

  lemma {:induction false} FirstExactly(py: Runtime, fs: seq<Finding>, i: nat, first: nat)
    requires i < |fs| && first < |fs| && forall j :: 0 <= j < |fs| ==> !Incomparable(fs[j])
    requires Classify(py, fs[i]).High?
    ensures var cs := ClassesOf(py, fs);
      FirstFor(py, fs, i, first) <==> First(cs, first) && cs[first].key == cs[i].key
  {
    hide Classify, SameIssue, Incomparable, PackageOf, AdvisoryOf, SeverityOf, Serious;
    var cs := ClassesOf(py, fs);
    forall j | 0 <= j < |fs| ensures SameIssue(py, fs[j], fs[i]) <==> cs[j].High? && cs[j].key == cs[i].key {
      SameKey(py, fs[j], fs[i]);
    }
  }

  /** One serious finding: the verdict on its class is the verdict on the finding. */
  lemma {:induction false} ExcusedExactly(py: Runtime, excs: seq<Record>, fs: seq<Finding>, today: int, i: nat)
    requires i < |fs| && forall j :: 0 <= j < |fs| ==> !Incomparable(fs[j])
    requires Classify(py, fs[i]).High?
    ensures var cs := ClassesOf(py, fs);
      Covered(EntriesOf(py, excs), cs[i].key, FirstSeverity(cs, cs[i].key), today)
      <==> FirstExcused(py, excs, fs, i, today)
  {
    hide *;
    ClassesAre(py, fs);
    var cs := ClassesOf(py, fs);
    var f := FirstOf(cs, cs[i].key, i);
    FirstExactly(py, fs, i, f);
    SameKey(py, fs[f], fs[i]);
    SeverityOfClass(py, fs[f]) by {
      FirstIsHigh(cs, f);
    }
    CoveredExactly(py, excs, fs[i], SeverityOf(py, fs[f]), today);
    FirstAlone(py, excs, fs, i, f, today);
  }

  lemma {:induction false} FirstAlone(py: Runtime, excs: seq<Record>, fs: seq<Finding>, i: nat, f: nat, today: int)
    requires i < |fs| && FirstFor(py, fs, i, f)
    ensures FirstExcused(py, excs, fs, i, today) <==> Excused(py, excs, fs[i], SeverityOf(py, fs[f]), today)
  {
    hide Excused, SameIssue, SeverityOf;
  }

  lemma {:induction false} ClassesAre(py: Runtime, fs: seq<Finding>)
    ensures forall j :: 0 <= j < |fs| ==> ClassesOf(py, fs)[j] == Classify(py, fs[j])
  {
    hide Classify;
  }

  lemma {:induction false} FirstIsHigh(cs: seq<Class>, f: nat)
    requires f < |cs| && First(cs, f)
    ensures cs[f].High?
  {
  }

  lemma {:induction false} SeverityOfClass(py: Runtime, f: Finding)
    requires !Incomparable(f) && Classify(py, f).High?
    ensures Classify(py, f).severity == SeverityOf(py, f)
  {
    ClassExactly(py, f);
    hide Classify, Strip;
  }

  /** The verdict on classes and entries is the verdict on findings and records. */
  lemma {:induction false} PassesExactly(py: Runtime, excs: seq<Record>, fs: seq<Finding>, today: int)
    ensures Passes(EntriesOf(py, excs), ClassesOf(py, fs), today) <==> Verdict(py, excs, fs, today)
  {
    hide GoodEntries, GoodRecords, Classify, Covered, FirstExcused, FirstSeverity, Strip, SeverityOf, PackageOf,
         AdvisoryOf, Incomparable, Serious;
    var cs := ClassesOf(py, fs);
    RecordsExactly(py, excs);
    forall i | 0 <= i < |fs|
      ensures cs[i] == Raises <==> Incomparable(fs[i])
      ensures cs[i] == NoAdvisory <==> !Incomparable(fs[i]) && Serious(py, fs[i]) && AdvisoryOf(py, fs[i]) == ""
      ensures cs[i].High? <==> !Incomparable(fs[i]) && Serious(py, fs[i]) && AdvisoryOf(py, fs[i]) != ""
    {
      ClassExactly(py, fs[i]);
    }
    if forall j :: 0 <= j < |fs| ==> !Incomparable(fs[j]) {
      forall i | 0 <= i < |fs| && cs[i].High?
        ensures Covered(EntriesOf(py, excs), cs[i].key, FirstSeverity(cs, cs[i].key), today)
          <==> FirstExcused(py, excs, fs, i, today)
      {
        ExcusedExactly(py, excs, fs, today, i);
      }
    }
  }

  // ---- The script ----

  /** The exit code for the text of the exception list: 0 or 1; an exception of the interpreter also ends with 1. */
  method Gate(py: Runtime, text: string, audit: Json, today: int) returns (code: int)
    ensures code == 0 || code == 1
    ensures code == 0 <==>
      && Parse(Read(text)).Some?
      && exists fs :: Yields(py, audit, fs) && Verdict(py, Parse(Read(text)).value, fs, today)
  {
    hide *;
    var exceptions := ParseExceptions(Read(text));
    if exceptions.None? {
      return 1;
    }
    var index, errors := BuildIndex(py, exceptions.value);
    var findings := IterVulns(py, audit);
    if findings.None? {
      return 1;
    }
    var raised, more := CheckFindings(py, findings.value, index, today);
    VerdictOf(index, EntriesOf(py, exceptions.value), ClassesOf(py, findings.value), today);
    PassesExactly(py, exceptions.value, findings.value, today);
    assert Yields(py, audit, findings.value);
    if raised {
      return 1;
    }
    code := if errors + more > 0 then 1 else 0;
  }
}
