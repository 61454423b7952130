/** Laws of the gate's verdict over all exception lists, findings and days. */
module GateLaws {
  import opened Collections
  import opened ExceptionFile
  import opened AuditReport
  import opened AuditGate

  // ---- The `seen` set ----

  /** The verdict of the loop without `seen`: every occurrence is checked on its own. */
  ghost predicate PassesEach(es: Entries, cs: seq<Class>, today: int) {
    && GoodEntries(es)
    && Readable(cs)
    && forall i :: 0 <= i < |cs| && cs[i].High? ==> Covered(es, cs[i].key, cs[i].severity, today)
  }

  /** All occurrences of a key have one severity. */
  ghost predicate Uniform(cs: seq<Class>) {
    forall i, j :: 0 <= i < |cs| && 0 <= j < |cs| && cs[i].High? && cs[j].High? && cs[i].key == cs[j].key ==>
      cs[i].severity == cs[j].severity
  }

  predicate FixesSeverity(e: Option<(Key, Exemption)>, key: Key) {
    e.Some? && e.value.0 == key && e.value.1.severity != ""
  }

  /** An occurrence whose severity is fixed by an exception agrees with the first one. */
  ghost predicate AgreesWithFirst(es: Entries, cs: seq<Class>) {
    forall i, k :: 0 <= i < |cs| && cs[i].High? && 0 <= k < |es| && FixesSeverity(es[k], cs[i].key) ==>
      cs[i].severity == FirstSeverity(cs, cs[i].key)
  }

  /**
   * Skipping repeated keys hides later occurrences: the verdicts agree exactly when every occurrence
   * whose exception names a severity has the severity of its key's first occurrence.
   */
  lemma {:induction false} SeenExact(es: Entries, cs: seq<Class>, today: int)
    ensures PassesEach(es, cs, today) <==> Passes(es, cs, today) && AgreesWithFirst(es, cs)
  {
    if PassesEach(es, cs, today) {
      forall i | 0 <= i < |cs| && cs[i].High? ensures Covered(es, cs[i].key, FirstSeverity(cs, cs[i].key), today) {
        var f := FirstOf(cs, cs[i].key, i);
      }
      forall i, k | 0 <= i < |cs| && cs[i].High? && 0 <= k < |es| && FixesSeverity(es[k], cs[i].key)
        ensures cs[i].severity == FirstSeverity(cs, cs[i].key)
      {
        var f := FirstOf(cs, cs[i].key, i);
        CoverIsEntry(es, k, cs[i].severity, today);
        CoverIsEntry(es, k, cs[f].severity, today);
      }
    }
    if Passes(es, cs, today) && AgreesWithFirst(es, cs) {
      forall i | 0 <= i < |cs| && cs[i].High? ensures Covered(es, cs[i].key, cs[i].severity, today) {
        var k :| 0 <= k < |es| && es[k].Some? && es[k].value.0 == cs[i].key
          && Accepts(es[k].value.1, FirstSeverity(cs, cs[i].key), today);
      }
    }
  }

  /** With distinct keys only one entry can cover a key. */
  lemma {:induction false} CoverIsEntry(es: Entries, k: nat, severity: string, today: int)
    requires GoodEntries(es) && k < |es|
    ensures Covered(es, es[k].value.0, severity, today) <==> Accepts(es[k].value.1, severity, today)
  {
    if i :| 0 <= i < |es| && es[i].Some? && es[i].value.0 == es[k].value.0 && Accepts(es[i].value.1, severity, today) {
      assert i == k;
    }
  }

  /** When severities are uniform, `seen` is transparent. */
  lemma {:induction false} SeenTransparent(es: Entries, cs: seq<Class>, today: int)
    requires Uniform(cs)
    ensures Passes(es, cs, today) <==> PassesEach(es, cs, today)
  {
    SeenExact(es, cs, today);
    forall i | 0 <= i < |cs| && cs[i].High? ensures cs[i].severity == FirstSeverity(cs, cs[i].key) {
      var f := FirstOf(cs, cs[i].key, i);
    }
  }

  // ---- Order ----

  ghost predicate SameMembers<T(!new)>(s: seq<T>, t: seq<T>) {
    forall x :: x in s <==> x in t
  }

  lemma {:induction false} PermutedMembers<T(!new)>(s: seq<T>, t: seq<T>)
    requires multiset(s) == multiset(t)
    ensures SameMembers(s, t)
  {
    forall x ensures x in s <==> x in t {
      assert x in s <==> x in multiset(s);
      assert x in t <==> x in multiset(t);
    }
  }

  lemma {:induction false} PassesEachOfMembers(es: Entries, cs: seq<Class>, ds: seq<Class>, today: int)
    requires SameMembers(cs, ds) && PassesEach(es, cs, today)
    ensures PassesEach(es, ds, today)
  {
    forall i | 0 <= i < |ds|
      ensures ds[i] != Raises && ds[i] != NoAdvisory && (ds[i].High? ==> Covered(es, ds[i].key, ds[i].severity, today))
    {
      assert ds[i] in ds;
      assert ds[i] in cs;
      var j :| 0 <= j < |cs| && cs[j] == ds[i];
    }
  }

  lemma {:induction false} UniformOfMembers(cs: seq<Class>, ds: seq<Class>)
    requires SameMembers(cs, ds) && Uniform(cs)
    ensures Uniform(ds)
  {
    forall i, j | 0 <= i < |ds| && 0 <= j < |ds| && ds[i].High? && ds[j].High? && ds[i].key == ds[j].key
      ensures ds[i].severity == ds[j].severity
    {
      assert ds[i] in cs && ds[j] in cs;
      var a :| 0 <= a < |cs| && cs[a] == ds[i];
      var b :| 0 <= b < |cs| && cs[b] == ds[j];
    }
  }

  /** With uniform severities the findings may come in any order, any number of times. */
  lemma {:induction false} FindingsPermute(es: Entries, cs: seq<Class>, ds: seq<Class>, today: int)
    requires SameMembers(cs, ds) && Uniform(cs)
    ensures Passes(es, cs, today) <==> Passes(es, ds, today)
  {
    UniformOfMembers(cs, ds);
    SeenTransparent(es, cs, today);
    SeenTransparent(es, ds, today);
    if PassesEach(es, cs, today) {
      PassesEachOfMembers(es, cs, ds, today);
    }
    if PassesEach(es, ds, today) {
      PassesEachOfMembers(es, ds, cs, today);
    }
  }

  /** Some order of the findings passes: every key has an occurrence that an exception covers. */
  ghost predicate CanPass(es: Entries, cs: seq<Class>, today: int) {
    && GoodEntries(es)
    && Readable(cs)
    && forall i :: 0 <= i < |cs| && cs[i].High? ==> HasCover(es, cs, cs[i].key, today)
  }

  ghost predicate HasCover(es: Entries, cs: seq<Class>, key: Key, today: int) {
    exists j :: 0 <= j < |cs| && Good(es, cs[j], today) && cs[j].key == key
  }

  ghost predicate Good(es: Entries, c: Class, today: int) {
    c.High? && Covered(es, c.key, c.severity, today)
  }

  lemma {:induction false} FilterSplits<T(!new)>(s: seq<T>, keep: T -> bool, drop: T -> bool)
    requires forall x :: x in s ==> keep(x) != drop(x)
    ensures multiset(Filter(s, keep) + Filter(s, drop)) == multiset(s)
  {
    if s != [] {
      var n := |s| - 1;
      assert s == s[..n] + [s[n]];
      FilterSplits(s[..n], keep, drop);
    }
  }

  /** The covered occurrences first, then the others. */
  ghost function CoveredFirst(es: Entries, cs: seq<Class>, today: int): seq<Class> {
    Filter(cs, (c: Class) => Good(es, c, today)) + Filter(cs, (c: Class) => !Good(es, c, today))
  }

  lemma {:induction false} CoveredFirstPasses(es: Entries, cs: seq<Class>, today: int)
    requires CanPass(es, cs, today)
    ensures multiset(CoveredFirst(es, cs, today)) == multiset(cs) && Passes(es, CoveredFirst(es, cs, today), today)
  {
    hide GoodEntries, Covered, Filter;
    var keep, drop := (c: Class) => Good(es, c, today), (c: Class) => !Good(es, c, today);
    FilterSplits(cs, keep, drop);
    var front, ds := Filter(cs, keep), CoveredFirst(es, cs, today);
    PermutedMembers(cs, ds);
    ReadableOfMembers(cs, ds);
    forall i | 0 <= i < |ds| && ds[i].High? ensures Covered(es, ds[i].key, FirstSeverity(ds, ds[i].key), today) {
      assert ds[i] in ds;
      var a :| 0 <= a < |cs| && cs[a] == ds[i];
      assert HasCover(es, cs, cs[a].key, today);
      var j :| 0 <= j < |cs| && Good(es, cs[j], today) && cs[j].key == ds[i].key;
      assert keep(cs[j]) && cs[j] in front;
      var m :| 0 <= m < |front| && front[m] == cs[j];
      assert ds[m] == cs[j];
      forall k | 0 <= k < |front| ensures Good(es, ds[k], today) {
        assert ds[k] == front[k] && front[k] in front;
      }
      FirstIsGood(es, ds, |front|, m, today);
    }
  }

  lemma {:induction false} ReadableOfMembers(cs: seq<Class>, ds: seq<Class>)
    requires SameMembers(cs, ds) && Readable(cs)
    ensures Readable(ds)
  {
    forall i | 0 <= i < |ds| ensures ds[i] != Raises && ds[i] != NoAdvisory {
      assert ds[i] in ds;
      assert ds[i] in cs;
    }
  }

  /** A key that occurs among the first n findings, all covered, is covered at its first occurrence. */
  lemma {:induction false} FirstIsGood(es: Entries, ds: seq<Class>, n: nat, m: nat, today: int)
    requires m < n <= |ds| && ds[m].High? && forall i :: 0 <= i < n ==> Good(es, ds[i], today)
    ensures Covered(es, ds[m].key, FirstSeverity(ds, ds[m].key), today)
  {
    var f := FirstOf(ds, ds[m].key, m);
    assert Good(es, ds[f], today);
  }

  /** An occurrence that no exception covers fails the gate when it comes first. */
  lemma {:induction false} UncoveredFirstFails(es: Entries, cs: seq<Class>, today: int, b: nat)
    requires b < |cs| && cs[b].High? && !Covered(es, cs[b].key, cs[b].severity, today)
    ensures var ds := [cs[b]] + cs[..b] + cs[b + 1..];
      multiset(ds) == multiset(cs) && !Passes(es, ds, today)
  {
    hide Covered;
    var ds := [cs[b]] + cs[..b] + cs[b + 1..];
    assert cs == cs[..b] + [cs[b]] + cs[b + 1..];
    assert ds[0] == cs[b] && ds[..0] == [];
    FirstIs(ds, 0);
  }

  /**
   * If every key has an occurrence that is covered and some occurrence is not, the order decides:
   * one order of the same findings passes and another fails.
   */
  lemma {:induction false} OrderMatters(es: Entries, cs: seq<Class>, today: int)
    requires CanPass(es, cs, today) && !PassesEach(es, cs, today)
    ensures exists ds :: multiset(ds) == multiset(cs) && Passes(es, ds, today)
    ensures exists ds :: multiset(ds) == multiset(cs) && !Passes(es, ds, today)
  {
    hide Passes, Covered;
    CoveredFirstPasses(es, cs, today);
    var b :| 0 <= b < |cs| && cs[b].High? && !Covered(es, cs[b].key, cs[b].severity, today);
    UncoveredFirstFails(es, cs, today, b);
  }

  lemma {:induction false} PassesCanPass(es: Entries, cs: seq<Class>, ds: seq<Class>, today: int)
    requires multiset(ds) == multiset(cs) && Passes(es, ds, today)
    ensures CanPass(es, cs, today)
  {
    hide Covered, GoodEntries;
    PermutedMembers(ds, cs);
    ReadableOfMembers(ds, cs);
    forall i | 0 <= i < |cs| && cs[i].High? ensures HasCover(es, cs, cs[i].key, today) {
      assert cs[i] in cs;
      var a :| 0 <= a < |ds| && ds[a] == cs[i];
      var f := FirstOf(ds, cs[i].key, a);
      assert Good(es, ds[f], today);
      assert ds[f] in ds;
      assert ds[f] in cs;
      var j :| 0 <= j < |cs| && cs[j] == ds[f];
    }
  }

  /**
   * The verdict is the same for every order of the findings if and only if each occurrence is
   * covered on its own, or no order passes.
   */
  lemma {:induction false} OrderExactly(es: Entries, cs: seq<Class>, today: int)
    ensures (forall ds :: multiset(ds) == multiset(cs) ==> (Passes(es, ds, today) <==> Passes(es, cs, today)))
       <==> PassesEach(es, cs, today) || !CanPass(es, cs, today)
  {
    hide Passes, CanPass, PassesEach;
    if PassesEach(es, cs, today) {
      forall ds | multiset(ds) == multiset(cs) ensures Passes(es, ds, today) {
        PermutedMembers(cs, ds);
        PassesEachOfMembers(es, cs, ds, today);
        SeenExact(es, ds, today);
      }
    } else if CanPass(es, cs, today) {
      OrderMatters(es, cs, today);
    } else {
      forall ds | multiset(ds) == multiset(cs) ensures !Passes(es, ds, today) {
        if Passes(es, ds, today) {
          PassesCanPass(es, cs, ds, today);
        }
      }
    }
  }

  lemma {:induction false} CountedOnce<T>(s: seq<T>, i: nat, j: nat)
    requires i < j < |s| && s[i] == s[j]
    ensures multiset(s)[s[i]] >= 2
  {
    assert s == s[..i] + [s[i]] + s[i + 1..j] + [s[j]] + s[j + 1..];
  }

  lemma {:induction false} CountedTwice<T>(s: seq<T>, x: T)
    requires multiset(s)[x] >= 2
    ensures exists i, j :: 0 <= i < j < |s| && s[i] == x && s[j] == x
  {
    assert x in multiset(s);
    var i :| 0 <= i < |s| && s[i] == x;
    assert s == s[..i] + [s[i]] + s[i + 1..];
    assert x in multiset(s[..i] + s[i + 1..]);
    var rest := s[..i] + s[i + 1..];
    assert x in rest;
    var k :| 0 <= k < |rest| && rest[k] == x;
    if k < i {
      assert s[k] == x;
    } else {
      assert s[k + 1] == x;
    }
  }

  lemma {:induction false} GoodEntriesPermute(es: Entries, fs: Entries)
    requires multiset(es) == multiset(fs) && GoodEntries(es)
    ensures GoodEntries(fs)
  {
    PermutedMembers(es, fs);
    forall i | 0 <= i < |fs| ensures fs[i].Some? {
      assert fs[i] in fs;
      assert fs[i] in es;
    }
    forall i, j | 0 <= i < j < |fs| ensures fs[i].value.0 != fs[j].value.0 {
      assert fs[i] in fs && fs[j] in fs;
      assert fs[i] in es && fs[j] in es;
      var a :| 0 <= a < |es| && es[a] == fs[i];
      var b :| 0 <= b < |es| && es[b] == fs[j];
      if fs[i] == fs[j] {
        CountedOnce(fs, i, j);
        CountedTwice(es, fs[i]);
      }
    }
  }

  lemma {:induction false} CoveredPermute(es: Entries, fs: Entries, key: Key, severity: string, today: int)
    requires SameMembers(es, fs) && Covered(es, key, severity, today)
    ensures Covered(fs, key, severity, today)
  {
    var i :| 0 <= i < |es| && es[i].Some? && es[i].value.0 == key && Accepts(es[i].value.1, severity, today);
    assert es[i] in es;
    assert es[i] in fs;
    var j :| 0 <= j < |fs| && fs[j] == es[i];
  }

  /** The exception list may be written in any order. */
  lemma {:induction false} ExceptionsPermute(es: Entries, fs: Entries, cs: seq<Class>, today: int)
    requires multiset(es) == multiset(fs)
    ensures Passes(es, cs, today) <==> Passes(fs, cs, today)
  {
    if Passes(es, cs, today) {
      ExceptionsPermuteOneWay(es, fs, cs, today);
    }
    if Passes(fs, cs, today) {
      ExceptionsPermuteOneWay(fs, es, cs, today);
    }
  }

  lemma {:induction false} ExceptionsPermuteOneWay(es: Entries, fs: Entries, cs: seq<Class>, today: int)
    requires multiset(es) == multiset(fs) && Passes(es, cs, today)
    ensures Passes(fs, cs, today)
  {
    GoodEntriesPermute(es, fs);
    PermutedMembers(es, fs);
    forall i | 0 <= i < |cs| && cs[i].High? ensures Covered(fs, cs[i].key, FirstSeverity(cs, cs[i].key), today) {
      CoveredPermute(es, fs, cs[i].key, FirstSeverity(cs, cs[i].key), today);
    }
  }

  lemma {:induction false} MapWithout<T, U>(s: seq<T>, f: T -> U, i: nat)
    requires i < |s|
    ensures multiset(Map(s, f)) == multiset(Map(s[..i] + s[i + 1..], f)) + multiset{f(s[i])}
    ensures multiset(s) == multiset(s[..i] + s[i + 1..]) + multiset{s[i]}
  {
    assert s == s[..i] + [s[i]] + s[i + 1..];
    assert Map(s, f) == Map(s[..i], f) + [f(s[i])] + Map(s[i + 1..], f);
    assert Map(s[..i] + s[i + 1..], f) == Map(s[..i], f) + Map(s[i + 1..], f);
  }

  lemma {:induction false} Cancelled<T>(a: multiset<T>, b: multiset<T>, m: multiset<T>, x: T)
    requires m == a + multiset{x} && m == b + multiset{x}
    ensures a == b
  {
    assert a == m - multiset{x} && b == m - multiset{x};
  }

  lemma {:induction false} MapPermute<T, U>(s: seq<T>, t: seq<T>, f: T -> U)
    requires multiset(s) == multiset(t)
    ensures multiset(Map(s, f)) == multiset(Map(t, f))
  {
    hide Map;
    if s == [] {
      assert |multiset(s)| == 0;
    } else {
      var x := s[0];
      assert x in multiset(t);
      var i :| 0 <= i < |t| && t[i] == x;
      MapWithout(s, f, 0);
      MapWithout(t, f, i);
      var s', t' := s[..0] + s[1..], t[..i] + t[i + 1..];
      Cancelled(multiset(s'), multiset(t'), multiset(s), x);
      MapPermute(s', t', f);
    }
  }

  /** Permuting the written exceptions leaves the verdict of the script unchanged. */
  lemma {:induction false} RecordsPermute(py: Runtime, excs: seq<Record>, other: seq<Record>, cs: seq<Class>,
                                          today: int)
    requires multiset(excs) == multiset(other)
    ensures Passes(EntriesOf(py, excs), cs, today) <==> Passes(EntriesOf(py, other), cs, today)
  {
    hide Passes;
    var f := (exc: Record) => AuditGate.Entry(py, exc);
    assert EntriesOf(py, excs) == Map(excs, f) && EntriesOf(py, other) == Map(other, f);
    MapPermute(excs, other, f);
    ExceptionsPermute(EntriesOf(py, excs), EntriesOf(py, other), cs, today);
  }

  // ---- Growth ----

  /** A further valid exception for a new key never turns a pass into a failure. */
  lemma {:induction false} ExceptionAdded(es: Entries, key: Key, e: Exemption, cs: seq<Class>, today: int)
    requires Passes(es, cs, today)
    requires forall i :: 0 <= i < |es| ==> es[i].value.0 != key
    ensures Passes(es + [Some((key, e))], cs, today)
  {
    var fs := es + [Some((key, e))];
    assert forall i :: 0 <= i < |es| ==> fs[i] == es[i];
    forall i | 0 <= i < |cs| && cs[i].High? ensures Covered(fs, cs[i].key, FirstSeverity(cs, cs[i].key), today) {
      var k :| 0 <= k < |es| && es[k].Some? && es[k].value.0 == cs[i].key
        && Accepts(es[k].value.1, FirstSeverity(cs, cs[i].key), today);
      assert fs[k] == es[k];
    }
  }

  lemma {:induction false} FirstSeverityStable(cs: seq<Class>, more: seq<Class>, key: Key)
    requires Occurs(cs, key)
    ensures FirstSeverity(cs + more, key) == FirstSeverity(cs, key)
  {
    if more == [] {
      assert cs + more == cs;
    } else {
      var n := |more| - 1;
      FirstSeverityStable(cs, more[..n], key);
      assert (cs + more)[..|cs| + n] == cs + more[..n];
      var i :| 0 <= i < |cs| && cs[i].High? && cs[i].key == key;
      assert (cs + more[..n])[i].key == key;
    }
  }

  /** Findings appended at the end never turn a failure into a pass. */
  lemma {:induction false} FindingsAppended(es: Entries, cs: seq<Class>, more: seq<Class>, today: int)
    requires Passes(es, cs + more, today)
    ensures Passes(es, cs, today)
  {
    forall i | 0 <= i < |cs| ensures cs[i] != Raises && cs[i] != NoAdvisory {
      assert (cs + more)[i] == cs[i];
    }
    forall i | 0 <= i < |cs| && cs[i].High? ensures Covered(es, cs[i].key, FirstSeverity(cs, cs[i].key), today) {
      assert (cs + more)[i] == cs[i];
      FirstSeverityStable(cs, more, cs[i].key);
    }
  }

  // ---- Expiry ----

  /** The expiry day of the exception that matches a key. */
  ghost function ExpiryOf(es: Entries, key: Key): int
    requires exists i :: 0 <= i < |es| && es[i].Some? && es[i].value.0 == key
  {
    var i :| 0 <= i < |es| && es[i].Some? && es[i].value.0 == key;
    es[i].value.1.expires
  }

  ghost predicate Matched(es: Entries, cs: seq<Class>) {
    forall i :: 0 <= i < |cs| && cs[i].High? ==> exists k :: 0 <= k < |es| && es[k].Some? && es[k].value.0 == cs[i].key
  }

  /** The earliest expiry among the exceptions actually matched; None when nothing has to be matched. */
  ghost function Deadline(es: Entries, cs: seq<Class>): Option<int>
    requires Matched(es, cs)
  {
    if cs == [] then None
    else
      var n := |cs| - 1;
      var d := Deadline(es, cs[..n]);
      if !cs[n].High? then d
      else
        var x := ExpiryOf(es, cs[n].key);
        if d.None? || x < d.value then Some(x) else d
  }

  lemma {:induction false} DeadlineIsMinimum(es: Entries, cs: seq<Class>, day: int)
    requires Matched(es, cs)
    ensures (Deadline(es, cs).Some? ==> day <= Deadline(es, cs).value)
       <==> forall i :: 0 <= i < |cs| && cs[i].High? ==> day <= ExpiryOf(es, cs[i].key)
  {
    if cs != [] {
      var n := |cs| - 1;
      assert Matched(es, cs[..n]) by {
        forall i | 0 <= i < n && cs[..n][i].High?
          ensures exists k :: 0 <= k < |es| && es[k].Some? && es[k].value.0 == cs[..n][i].key
        {
          assert cs[i].High?;
        }
      }
      DeadlineIsMinimum(es, cs[..n], day);
      assert forall i :: 0 <= i < n ==> cs[..n][i] == cs[i];
    }
  }

  /**
   * If the gate passes on some day, it passes on exactly the days up to the earliest expiry of the
   * exceptions it matched, and on every day if it matched none.
   */
  lemma {:induction false} ExpiryThreshold(es: Entries, cs: seq<Class>, passed: int, day: int)
    requires Passes(es, cs, passed)
    ensures Matched(es, cs)
    ensures Passes(es, cs, day) <==> (Deadline(es, cs).Some? ==> day <= Deadline(es, cs).value)
  {
    forall i | 0 <= i < |cs| && cs[i].High?
      ensures exists k :: 0 <= k < |es| && es[k].Some? && es[k].value.0 == cs[i].key
    {
      var k :| 0 <= k < |es| && es[k].Some? && es[k].value.0 == cs[i].key
        && Accepts(es[k].value.1, FirstSeverity(cs, cs[i].key), passed);
    }
    forall i | 0 <= i < |cs| && cs[i].High?
      ensures Covered(es, cs[i].key, FirstSeverity(cs, cs[i].key), day) <==> day <= ExpiryOf(es, cs[i].key)
    {
      CoveredUntil(es, cs[i].key, FirstSeverity(cs, cs[i].key), passed, day);
    }
    DeadlineIsMinimum(es, cs, day);
  }

  lemma {:induction false} CoveredUntil(es: Entries, key: Key, severity: string, passed: int, day: int)
    requires GoodEntries(es) && Covered(es, key, severity, passed)
    ensures exists k :: 0 <= k < |es| && es[k].Some? && es[k].value.0 == key
    ensures Covered(es, key, severity, day) <==> day <= ExpiryOf(es, key)
  {
    var i :| 0 <= i < |es| && es[i].Some? && es[i].value.0 == key && Accepts(es[i].value.1, severity, passed);
    var k :| 0 <= k < |es| && es[k].Some? && es[k].value.0 == key && es[k].value.1.expires == ExpiryOf(es, key);
    assert i == k;
    CoverIsEntry(es, i, severity, day);
  }
}
