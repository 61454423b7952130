/** What a report yields, said of its JSON values alone. */
module ReportReading {
  import opened Collections
  import opened Selections
  import opened AuditReport

  type Members = seq<(string, Json)>

  /** Six values count as false. */
  lemma {:induction false} FalsyExactly(j: Json)
    ensures !Truthy(j) <==>
      j == Null || j == Bool(false) || j == Num(0.0) || j == Str("") || j == List([]) || j == Obj([])
  {
  }

  /** The value `get` finds: that of the first member with the name, Null without one. */
  ghost predicate ValueOf(members: Members, key: string, v: Json) {
    || (exists j :: 0 <= j < |members| && members[j] == (key, v) && Unnamed(members[..j], key))
    || (v == Null && Unnamed(members, key))
  }

  ghost predicate Unnamed(members: Members, key: string) {
    forall i :: 0 <= i < |members| ==> members[i].0 != key
  }

  lemma {:induction false} GetExactly(members: Members, key: string, v: Json)
    ensures Get(members, key) == v <==> ValueOf(members, key, v)
  {
    if members != [] {
      var (name, first) := members[0];
      if name == key {
        if v == first {
          assert members[0] == (key, v) && members[..0] == [];
        }
        if j :| 0 <= j < |members| && members[j] == (key, v) && Unnamed(members[..j], key) {
          if j > 0 {
            HeadUnnamed(members[..j], key);
          }
        }
      } else {
        GetExactly(members[1..], key, v);
        assert Unnamed(members, key) <==> Unnamed(members[1..], key) by {
          assert members == [members[0]] + members[1..];
        }
        if j :| 0 <= j < |members| && members[j] == (key, v) && Unnamed(members[..j], key) {
          assert members[1..][j - 1] == (key, v) && members[1..][..j - 1] == members[..j][1..];
        }
        if j :| 0 <= j < |members| - 1 && members[1..][j] == (key, v) && Unnamed(members[1..][..j], key) {
          assert members[j + 1] == (key, v) && members[..j + 1] == [members[0]] + members[1..][..j];
        }
      }
    }
  }

  lemma {:induction false} HeadUnnamed(members: Members, key: string)
    requires members != [] && Unnamed(members, key)
    ensures members[0].0 != key
  {
  }

  /** The first truthy value among those of the members named, else the last of them. */
  ghost predicate FirstNamed(members: Members, keys: seq<string>, x: Json) {
    exists values :: ValuesOf(members, keys, values) && FirstTruthy(values, x)
  }

  ghost predicate ValuesOf(members: Members, keys: seq<string>, values: seq<Json>) {
    |values| == |keys| && forall i :: 0 <= i < |keys| ==> ValueOf(members, keys[i], values[i])
  }

  lemma {:induction false} GetsExactly(members: Members, keys: seq<string>, values: seq<Json>)
    ensures values == Gets(members, keys) <==> ValuesOf(members, keys, values)
  {
    hide ValueOf, Get;
    forall i | 0 <= i < |keys| && |values| == |keys|
      ensures ValueOf(members, keys[i], values[i]) <==> values[i] == Gets(members, keys)[i]
    {
      GetExactly(members, keys[i], values[i]);
    }
  }

  lemma {:induction false} OneFirst(values: seq<Json>, x: Json, y: Json)
    requires FirstTruthy(values, x) && FirstTruthy(values, y)
    ensures x == y
  {
  }

  lemma {:induction false} FirstNamedExactly(members: Members, keys: seq<string>, x: Json, y: Json)
    requires FirstTruthy(Gets(members, keys), x)
    ensures FirstNamed(members, keys, y) <==> x == y
  {
    hide FirstTruthy, ValuesOf;
    GetsExactly(members, keys, Gets(members, keys));
    if FirstNamed(members, keys, y) {
      var values :| ValuesOf(members, keys, values) && FirstTruthy(values, y);
      GetsExactly(members, keys, values);
      OneFirst(values, x, y);
    }
  }

  // ---- The `advisories` format ----

  /** `(cves or [None])[0]`, for values it can be computed of. */
  ghost predicate FirstOfList(cves: Json, x: Json) {
    match cves
    case List(items) => x == if items == [] then Null else items[0]
    case Str(s) => x == if s == "" then Null else Str([s[0]])
    case _ => x == Null && !Truthy(cves)
  }

  /** The seven candidates for an identifier; `cves` is not consulted once one of the first two is truthy. */
  ghost predicate CandidatesOf(py: Runtime, a: Members, values: seq<Json>) {
    && |values| == 7
    && ValueOf(a, "github_advisory_id", values[0]) && ValueOf(a, "url", values[1])
    && (Truthy(values[0]) || Truthy(values[1]) || exists c :: ValueOf(a, "cves", c) && FirstOfList(c, values[2]))
    && (exists n :: ValueOf(a, "id", n) &&
          values[3] == if n == Null then Null else Str(if n.Str? then n.s else py.show(n)))
    && ValueOf(a, "title", values[4]) && ValueOf(a, "advisory", values[5]) && ValueOf(a, "overview", values[6])
  }

  /** What the script yields for one advisory. */
  ghost predicate AdvisoryYields(py: Runtime, advisory: Json, f: Finding) {
    && advisory.Obj?
    && FirstNamed(advisory.members, ["module_name", "name"], f.name)
    && ValueOf(advisory.members, "severity", f.severity)
    && exists values :: CandidatesOf(py, advisory.members, values) && FirstTruthy(values, f.advisory)
  }

  // ---- The `vulnerabilities` format ----

  /** The advisory one element of `via` names. */
  ghost predicate ItemNames(item: Json, x: Json) {
    match item
    case Str(_) => x == item
    case Obj(members) => FirstNamed(members, ["github_advisory_id", "url", "source", "title", "name"], x)
    case _ => false
  }

  ghost predicate ItemTitled(item: Json, x: Json) {
    match item
    case Str(_) => x == item
    case Obj(members) => FirstNamed(members, ["title", "url", "advisory", "source"], x)
    case _ => false
  }

  /** The findings of a list: one for each element that names a truthy advisory, in order. */
  ghost predicate ListYields(name: string, severity: Json, items: seq<Json>, at: seq<nat>, fs: seq<Finding>) {
    && |at| == |fs|
    && (forall i, j :: 0 <= i < j < |at| ==> at[i] < at[j])
    && (forall i :: 0 <= i < |at| ==>
          && at[i] < |items| && ItemNames(items[at[i]], fs[i].advisory) && Truthy(fs[i].advisory)
          && fs[i].name == Str(name) && fs[i].severity == severity)
    && (forall p: nat, x :: p < |items| && ItemNames(items[p], x) && Truthy(x) ==> p in at)
  }

  /** Only strings can be joined to a title. */
  ghost predicate TitlesJoin(items: seq<Json>) {
    forall p, x :: 0 <= p < |items| && ItemTitled(items[p], x) && Truthy(x) ==> x.Str?
  }

  ghost predicate ViaYields(name: string, severity: Json, via: Json, fs: seq<Finding>) {
    match via
    case List(items) => TitlesJoin(items) && exists at :: ListYields(name, severity, items, at, fs)
    case Str(s) => fs == if s == "" then [] else [Finding(Str(name), severity, via)]
    case _ => fs == []
  }

  /** What the script yields for one vulnerability. */
  ghost predicate VulnerabilityYields(name: string, vuln: Json, fs: seq<Finding>) {
    vuln.Obj? && exists via, severity ::
      ValueOf(vuln.members, "via", via) && ValueOf(vuln.members, "severity", severity)
      && ViaYields(name, severity, via, fs)
  }

  // ---- Whole reports ----

  /** The entries of a section; one that is missing or no object has none. */
  ghost predicate Section(members: Members, key: string, entries: Members) {
    exists v :: ValueOf(members, key, v) && entries == if v.Obj? then v.members else []
  }

  function Flat(parts: seq<seq<Finding>>): seq<Finding> {
    if parts == [] then [] else Flat(parts[..|parts| - 1]) + parts[|parts| - 1]
  }

  /** One finding per advisory, then those of each vulnerability in turn. */
  ghost predicate InTurn(py: Runtime, advisories: Members, vulnerabilities: Members, parts: seq<seq<Finding>>,
                         fs: seq<Finding>)
  {
    && |fs| >= |advisories| && |parts| == |vulnerabilities|
    && (forall i :: 0 <= i < |advisories| ==> AdvisoryYields(py, advisories[i].1, fs[i]))
    && (forall i :: 0 <= i < |parts| ==> VulnerabilityYields(vulnerabilities[i].0, vulnerabilities[i].1, parts[i]))
    && fs[|advisories|..] == Flat(parts)
  }

  /** What the script yields for a report. */
  ghost predicate Yields(py: Runtime, data: Json, fs: seq<Finding>) {
    data.Obj? && exists advisories, vulnerabilities, parts ::
      Section(data.members, "advisories", advisories) && Section(data.members, "vulnerabilities", vulnerabilities)
      && InTurn(py, advisories, vulnerabilities, parts, fs)
  }

  // ---- The script yields this and nothing else ----

  lemma {:induction false} CveExactly(a: Members, x: Json)
    ensures FirstCve(a) == Some(x) <==> exists c :: ValueOf(a, "cves", c) && FirstOfList(c, x)
  {
    hide ValueOf, Get;
    var c := Get(a, "cves");
    GetExactly(a, "cves", c);
    match c {
      case Str(s) => assert s != "" ==> s[..1] == [s[0]];
      case _ =>
    }
    assert FirstCve(a) == Some(x) <==> FirstOfList(c, x);
    if d :| ValueOf(a, "cves", d) && FirstOfList(d, x) {
      GetExactly(a, "cves", d);
    }
  }

  lemma {:induction false} IDExactly(py: Runtime, a: Members, x: Json)
    ensures x == (if Get(a, "id") == Null then Null else Str(py.Show(Get(a, "id"))))
       <==> exists n :: ValueOf(a, "id", n) && x == if n == Null then Null else Str(if n.Str? then n.s else py.show(n))
  {
    hide ValueOf, Get;
    var c := Get(a, "id");
    GetExactly(a, "id", c);
    if n :| ValueOf(a, "id", n) && x == if n == Null then Null else Str(if n.Str? then n.s else py.show(n)) {
      GetExactly(a, "id", n);
    }
  }

  lemma {:induction false} CandidatesFit(py: Runtime, a: Members)
    requires Truthy(Get(a, "github_advisory_id")) || Truthy(Get(a, "url")) || FirstCve(a).Some?
    ensures CandidatesOf(py, a, Candidates(py, a))
  {
    hide ValueOf, Get, FirstCve, FirstOfList;
    var values := Candidates(py, a);
    GetExactly(a, "github_advisory_id", values[0]);
    GetExactly(a, "url", values[1]);
    CveExactly(a, values[2]);
    IDExactly(py, a, values[3]);
    GetExactly(a, "title", values[4]);
    GetExactly(a, "advisory", values[5]);
    GetExactly(a, "overview", values[6]);
  }

  lemma {:induction false} CandidatesAgree(py: Runtime, a: Members, values: seq<Json>)
    requires CandidatesOf(py, a, values)
    ensures forall i :: 0 <= i < 7 && i != 2 ==> values[i] == Candidates(py, a)[i]
    ensures Truthy(values[0]) || Truthy(values[1]) || (FirstCve(a).Some? && values[2] == Candidates(py, a)[2])
  {
    hide ValueOf, Get, FirstCve, FirstOfList;
    GetExactly(a, "github_advisory_id", values[0]);
    GetExactly(a, "url", values[1]);
    CveExactly(a, values[2]);
    IDExactly(py, a, values[3]);
    GetExactly(a, "title", values[4]);
    GetExactly(a, "advisory", values[5]);
    GetExactly(a, "overview", values[6]);
  }

  lemma {:induction false} SameFirst(values: seq<Json>, others: seq<Json>, x: Json, y: Json)
    requires |values| == |others| == 7 && FirstTruthy(values, x) && FirstTruthy(others, y)
    requires forall i :: 0 <= i < 7 && i != 2 ==> values[i] == others[i]
    requires Truthy(values[0]) || Truthy(values[1]) || values[2] == others[2]
    ensures x == y
  {
    if values[2] == others[2] {
      assert values == others;
    }
  }

  /** One advisory yields its finding, and none where the script raises. */
  lemma {:induction false} AdvisoryExactlyYields(py: Runtime, advisory: Json, f: Finding)
    ensures AdvisoryFinding(py, advisory) == Some(f) <==> AdvisoryYields(py, advisory, f)
  {
    if advisory.Obj? {
      var a := advisory.members;
      AdvisoryExactly(py, advisory);
      hide AdvisoryFinding, Candidates, CandidatesOf, ValueOf, FirstTruthy, FirstNamed, Get;
      var r := AdvisoryFinding(py, advisory);
      if r.Some? {
        FirstNamedExactly(a, ["module_name", "name"], r.value.name, f.name);
        GetExactly(a, "severity", f.severity);
        RaisesOrFits(py, a);
      }
      if AdvisoryYields(py, advisory, f) {
        var values :| CandidatesOf(py, a, values) && FirstTruthy(values, f.advisory);
        CandidatesAgree(py, a, values);
        FitsNotRaises(py, a, values);
        SameFirst(values, Candidates(py, a), f.advisory, r.value.advisory);
      }
    }
  }

  lemma {:induction false} RaisesOrFits(py: Runtime, a: Members)
    requires !AdvisoryRaises(Obj(a))
    ensures CandidatesOf(py, a, Candidates(py, a))
  {
    hide CandidatesOf, Get;
    CandidatesFit(py, a);
  }

  lemma {:induction false} FitsNotRaises(py: Runtime, a: Members, values: seq<Json>)
    requires CandidatesOf(py, a, values)
    ensures !AdvisoryRaises(Obj(a)) && |Candidates(py, a)| == 7
  {
    CandidatesAgree(py, a, values);
    hide CandidatesOf, Get;
  }

  // ---- One vulnerability ----

  lemma {:induction false} ItemExactly(item: Json, x: Json)
    ensures ItemNames(item, x) <==> NamedBy(item, x)
    ensures ItemTitled(item, x) <==>
      (item.Str? && x == item) || (item.Obj? && x == ItemTitle(item.members))
  {
    hide FirstNamed, ItemAdvisory, ItemTitle, FirstTruthy;
    if item.Obj? {
      ItemsAreFirst(item.members);
      FirstNamedExactly(item.members, ADVISORY_KEYS, ItemAdvisory(item.members), x);
      FirstNamedExactly(item.members, TITLE_KEYS, ItemTitle(item.members), x);
    }
  }

  lemma {:induction false} TitlesExactly(items: seq<Json>)
    ensures TitlesJoin(items) <==> forall i :: 0 <= i < |items| ==> !BadTitle(items[i])
  {
    hide ItemTitled, ItemTitle;
    forall p, x | 0 <= p < |items|
      ensures ItemTitled(items[p], x) <==>
        (items[p].Str? && x == items[p]) || (items[p].Obj? && x == ItemTitle(items[p].members))
    {
      ItemExactly(items[p], x);
    }
    forall i | 0 <= i < |items| && BadTitle(items[i]) ensures !TitlesJoin(items) {
      assert ItemTitled(items[i], ItemTitle(items[i].members));
    }
  }

  lemma {:induction false} YieldedNext(name: string, severity: Json, pairs: seq<(Json, Json)>, pair: (Json, Json))
    ensures Yielded(name, severity, pairs + [pair]) == Yielded(name, severity, pairs)
      + (if Truthy(pair.0) then [Finding(Str(name), severity, pair.0)] else [])
  {
    assert (pairs + [pair])[..|pairs|] == pairs;
  }

  lemma {:induction false} ItemSkipped(name: string, severity: Json, items: seq<Json>, item: Json, at: seq<nat>,
                                       fs: seq<Finding>)
    requires ListYields(name, severity, items, at, fs) && forall x :: ItemNames(item, x) ==> !Truthy(x)
    ensures ListYields(name, severity, items + [item], at, fs)
  {
    hide ItemNames, Truthy;
    var all := items + [item];
    forall p: nat, x | p < |all| && ItemNames(all[p], x) && Truthy(x) ensures p in at {
      assert all[p] == if p < |items| then items[p] else item;
    }
  }

  lemma {:induction false} ItemAdded(name: string, severity: Json, items: seq<Json>, item: Json, at: seq<nat>,
                                     fs: seq<Finding>, x: Json)
    requires ListYields(name, severity, items, at, fs) && ItemNames(item, x) && Truthy(x)
    ensures ListYields(name, severity, items + [item], at + [|items|], fs + [Finding(Str(name), severity, x)])
  {
    hide ItemNames, Truthy;
    var all, at' := items + [item], at + [|items|];
    assert at'[|at|] == |items|;
    forall p: nat, y | p < |all| && ItemNames(all[p], y) && Truthy(y) ensures p in at' {
      assert p < |items| ==> all[p] == items[p];
    }
  }

  lemma {:induction false} ListPositions(name: string, severity: Json, items: seq<Json>) returns (at: seq<nat>)
    ensures ListYields(name, severity, items, at, Yielded(name, severity, ViaItems(items)))
    decreases |items|
  {
    hide *;
    if items == [] {
      at := [];
      NothingYielded(name, severity, items);
    } else {
      var n := |items| - 1;
      var before := ListPositions(name, severity, items[..n]);
      at := NextItem(name, severity, items[..n], items[n], before);
      assert items == items[..n] + [items[n]];
    }
  }

  lemma {:induction false} NothingYielded(name: string, severity: Json, items: seq<Json>)
    requires items == []
    ensures ListYields(name, severity, items, [], Yielded(name, severity, ViaItems(items)))
  {
  }

  lemma {:induction false} NextItem(name: string, severity: Json, items: seq<Json>, item: Json, before: seq<nat>)
    returns (at: seq<nat>)
    requires ListYields(name, severity, items, before, Yielded(name, severity, ViaItems(items)))
    ensures ListYields(name, severity, items + [item], at, Yielded(name, severity, ViaItems(items + [item])))
  {
    hide ListYields, ItemNames, Yielded, ItemAdvisory, ItemTitle, Truthy;
    var pairs, fs := ViaItems(items), Yielded(name, severity, ViaItems(items));
    assert (items + [item])[..|items|] == items;
    assert ViaItems(items + [item]) == pairs + ViaItem(item);
    forall x ensures ItemNames(item, x) <==> NamedBy(item, x) {
      ItemExactly(item, x);
    }
    hide ViaItems;
    if ViaItem(item) == [] {
      assert pairs + [] == pairs;
      at := before;
      ItemSkipped(name, severity, items, item, before, fs);
    } else {
      var pair := ViaItem(item)[0];
      assert ViaItem(item) == [pair];
      YieldedNext(name, severity, pairs, pair);
      if Truthy(pair.0) {
        at := before + [|items|];
        ItemAdded(name, severity, items, item, before, fs, pair.0);
      } else {
        at := before;
        assert fs + [] == fs;
        ItemSkipped(name, severity, items, item, before, fs);
      }
    }
  }

  lemma {:induction false} OneList(
    name: string, severity: Json, items: seq<Json>, at: seq<nat>, fs: seq<Finding>, bt: seq<nat>, gs: seq<Finding>)
    requires ListYields(name, severity, items, at, fs) && ListYields(name, severity, items, bt, gs)
    ensures fs == gs
  {
    hide ItemNames, Truthy;
    var rank := (j: Json) => 0;
    assert Ascending(items, rank, at) && Ascending(items, rank, bt);
    assert SamePositions(at, bt);
    OneOrder(items, rank, at, bt);
    forall i | 0 <= i < |fs| ensures fs[i] == gs[i] {
      ItemExactly(items[at[i]], fs[i].advisory);
      ItemExactly(items[at[i]], gs[i].advisory);
    }
  }

  lemma {:induction false} ViaExactly(name: string, severity: Json, via: Json, fs: seq<Finding>)
    ensures Joinable(Via(via)) && fs == Yielded(name, severity, Via(via)) <==> ViaYields(name, severity, via, fs)
  {
    if via.List? {
      ListExactly(name, severity, via.items, fs);
    } else if via.Str? {
      assert Via(via)[..0] == [];
    }
  }

  lemma {:induction false} ListExactly(name: string, severity: Json, items: seq<Json>, fs: seq<Finding>)
    ensures Joinable(Via(List(items))) && fs == Yielded(name, severity, Via(List(items)))
       <==> ViaYields(name, severity, List(items), fs)
  {
    ViaHolds(List(items));
    TitlesExactly(items);
    hide TitlesJoin, ListYields, Joinable, BadTitle, ViaItems, Yielded;
    var at := ListPositions(name, severity, items);
    if bt :| ListYields(name, severity, items, bt, fs) {
      OneList(name, severity, items, at, Yielded(name, severity, ViaItems(items)), bt, fs);
    }
  }

  /** One vulnerability yields its findings, in order, and none where the script raises. */
  lemma {:induction false} VulnerabilityExactlyYields(name: string, vuln: Json, fs: seq<Finding>)
    ensures VulnerabilityFindings(name, vuln) == Some(fs) <==> VulnerabilityYields(name, vuln, fs)
  {
    hide ValueOf, ViaYields, Get, Via, Joinable, Yielded;
    if vuln.Obj? {
      var via, severity := Get(vuln.members, "via"), Get(vuln.members, "severity");
      forall v ensures ValueOf(vuln.members, "via", v) <==> v == via {
        GetExactly(vuln.members, "via", v);
      }
      forall v ensures ValueOf(vuln.members, "severity", v) <==> v == severity {
        GetExactly(vuln.members, "severity", v);
      }
      ViaExactly(name, severity, via, fs);
    }
  }

  // ---- One report ----

  lemma {:induction false} SectionExactly(members: Members, key: string, entries: Members)
    ensures Section(members, key, entries) <==> entries == AuditReport.Members(Get(members, key))
  {
    hide ValueOf, Get;
    var found := Get(members, key);
    GetExactly(members, key, found);
    forall v ensures ValueOf(members, key, v) <==> v == found {
      GetExactly(members, key, v);
    }
    assert AuditReport.Members(found) == if found.Obj? then found.members else [];
  }

  ghost predicate PartsOf(entries: Members, parts: seq<seq<Finding>>) {
    |parts| == |entries| && forall i :: 0 <= i < |parts| ==>
      VulnerabilityYields(entries[i].0, entries[i].1, parts[i])
  }

  lemma {:induction false} PartsNext(entries: Members, parts: seq<seq<Finding>>, entry: (string, Json),
                                     part: seq<Finding>)
    ensures PartsOf(entries + [entry], parts + [part])
       <==> PartsOf(entries, parts) && VulnerabilityYields(entry.0, entry.1, part)
    ensures Flat(parts + [part]) == Flat(parts) + part
  {
    hide VulnerabilityYields;
    var es, ps := entries + [entry], parts + [part];
    assert ps[..|parts|] == parts;
    if PartsOf(es, ps) {
      assert ps[|parts|] == part && es[|entries|] == entry;
      assert forall i :: 0 <= i < |parts| ==> ps[i] == parts[i] && es[i] == entries[i];
    }
  }

  lemma {:induction false} PartsExactly(entries: Members, fs: seq<Finding>)
    ensures VulnerabilitiesFindings(entries) == Some(fs)
       <==> exists parts :: PartsOf(entries, parts) && fs == Flat(parts)
    decreases |entries|
  {
    hide *;
    if entries == [] {
      NoParts(entries);
    } else {
      var n := |entries| - 1;
      assert entries == entries[..n] + [entries[n]];
      var before, last := VulnerabilitiesFindings(entries[..n]), VulnerabilityFindings(entries[n].0, entries[n].1);
      NextFindings(entries);
      if before.Some? && last.Some? {
        PartsExactly(entries[..n], before.value);
        VulnerabilityExactlyYields(entries[n].0, entries[n].1, last.value);
        var parts :| PartsOf(entries[..n], parts) && before.value == Flat(parts);
        PartsNext(entries[..n], parts, entries[n], last.value);
      }
      if parts :| PartsOf(entries, parts) && fs == Flat(parts) {
        var m := LastPart(entries, parts);
        PartsNext(entries[..n], parts[..m], entries[n], parts[m]);
        PartsExactly(entries[..n], Flat(parts[..m]));
        VulnerabilityExactlyYields(entries[n].0, entries[n].1, parts[m]);
      }
    }
  }

  lemma {:induction false} NoParts(entries: Members)
    requires entries == []
    ensures VulnerabilitiesFindings(entries) == Some([])
    ensures forall parts :: PartsOf(entries, parts) <==> parts == []
    ensures Flat([]) == []
  {
  }

  lemma {:induction false} NextFindings(entries: Members)
    requires entries != []
    ensures var n := |entries| - 1;
      var before, last := VulnerabilitiesFindings(entries[..n]), VulnerabilityFindings(entries[n].0, entries[n].1);
      VulnerabilitiesFindings(entries)
      == if before.None? || last.None? then None else Some(before.value + last.value)
  {
  }

  lemma {:induction false} LastPart(entries: Members, parts: seq<seq<Finding>>) returns (m: nat)
    requires PartsOf(entries, parts) && entries != []
    ensures |parts| == m + 1 && parts == parts[..m] + [parts[m]]
  {
    m := |parts| - 1;
  }

  lemma {:induction false} AdvisoriesExactly(py: Runtime, entries: Members, fs: seq<Finding>)
    ensures AdvisoryFindings(py, entries) == Some(fs)
       <==> |fs| == |entries| && forall i :: 0 <= i < |entries| ==> AdvisoryYields(py, entries[i].1, fs[i])
  {
    hide AdvisoryFinding, AdvisoryYields, AdvisoryRaises;
    AdvisoriesInOrder(py, entries);
    forall i | 0 <= i < |entries| && |fs| == |entries|
      ensures AdvisoryFinding(py, entries[i].1) == Some(fs[i]) <==> AdvisoryYields(py, entries[i].1, fs[i])
    {
      AdvisoryExactlyYields(py, entries[i].1, fs[i]);
    }
    forall i | 0 <= i < |entries| ensures AdvisoryFinding(py, entries[i].1).None? <==> AdvisoryRaises(entries[i].1) {
      AdvisoryExactly(py, entries[i].1);
    }
    if |fs| == |entries| && forall i :: 0 <= i < |entries| ==> AdvisoryYields(py, entries[i].1, fs[i]) {
      assert AdvisoryFindings(py, entries).value == fs;
    }
  }

  /** A report yields exactly the findings of its entries, in turn, and none where the script raises. */
  lemma {:induction false} ReportExactlyYields(py: Runtime, data: Json, fs: seq<Finding>)
    ensures Findings(py, data) == Some(fs) <==> Yields(py, data, fs)
  {
    hide AdvisoryFindings, VulnerabilitiesFindings, Section, Flat, AdvisoryYields, VulnerabilityYields, Get;
    if data.Obj? {
      var a := AuditReport.Members(Get(data.members, "advisories"));
      var v := AuditReport.Members(Get(data.members, "vulnerabilities"));
      SectionExactly(data.members, "advisories", a);
      SectionExactly(data.members, "vulnerabilities", v);
      if Findings(py, data) == Some(fs) {
        var first, rest := AdvisoryFindings(py, a).value, VulnerabilitiesFindings(v).value;
        AdvisoriesExactly(py, a, first);
        PartsExactly(v, rest);
        var parts :| PartsOf(v, parts) && rest == Flat(parts);
        assert fs[|a|..] == rest;
        assert InTurn(py, a, v, parts, fs);
      }
      if Yields(py, data, fs) {
        var b, w, parts :| Section(data.members, "advisories", b) && Section(data.members, "vulnerabilities", w)
          && InTurn(py, b, w, parts, fs);
        SectionExactly(data.members, "advisories", b);
        SectionExactly(data.members, "vulnerabilities", w);
        AdvisoriesExactly(py, a, fs[..|a|]);
        assert PartsOf(v, parts);
        PartsExactly(v, fs[|a|..]);
        assert fs == fs[..|a|] + fs[|a|..];
      }
    }
  }
}
