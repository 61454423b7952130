/** Reading findings out of the two formats of an audit report. */
module AuditReport {
  import opened Collections
  import opened AuditText

  /** A decoded JSON document; an object lists its members in order, each key once. */
  datatype Json =
    | Null
    | Bool(b: bool)
    | Num(value: real)
    | Str(s: string)
    | List(items: seq<Json>)
    | Obj(members: seq<(string, Json)>)

  /** The built-ins of the script's runtime that are not modelled further. */
  datatype Runtime = Runtime(lower: string -> string, show: Json -> string, date: string -> Option<int>) {
    /** `str(j)` */
    function Show(j: Json): string {
      match j case Str(s) => s case _ => show(j)
    }
  }

  predicate Truthy(j: Json) {
    match j
    case Null => false
    case Bool(b) => b
    case Num(v) => v != 0.0
    case Str(s) => s != ""
    case List(items) => items != []
    case Obj(members) => members != []
  }

  /** `a or b` */
  function Or(a: Json, b: Json): Json {
    if Truthy(a) then a else b
  }

  /** `obj.get(key)` */
  function Get(members: seq<(string, Json)>, key: string): Json {
    if members == [] then Null
    else if members[0].0 == key then members[0].1
    else Get(members[1..], key)
  }

  /** What the script yields for one vulnerability; the title is only used in messages. */
  datatype Finding = Finding(name: Json, severity: Json, advisory: Json)

  // ---- The `advisories` format ----

  /** `(advisory.get("cves") or [None])[0]`; None where the subscript raises. */
  function FirstCve(a: seq<(string, Json)>): Option<Json> {
    match Get(a, "cves")
    case List(items) => Some(if items == [] then Null else items[0])
    case Str(s) => Some(if s == "" then Null else Str(s[..1]))
    case other => if Truthy(other) then None else Some(Null)
  }

  /** The advisory identifier: the first truthy of seven candidates, later ones not evaluated. */
  function PickAdvisoryID(py: Runtime, a: seq<(string, Json)>): Option<Json> {
    var direct := Or(Get(a, "github_advisory_id"), Get(a, "url"));
    if Truthy(direct) then Some(direct)
    else
      var cve := FirstCve(a);
      if cve.None? || Truthy(cve.value) then cve
      else
        var id := if Get(a, "id") == Null then Null else Str(py.Show(Get(a, "id")));
        Some(Or(id, Or(Get(a, "title"), Or(Get(a, "advisory"), Get(a, "overview")))))
  }

  function AdvisoryFinding(py: Runtime, advisory: Json): Option<Finding> {
    if !advisory.Obj? then None
    else
      var a := advisory.members;
      var id := PickAdvisoryID(py, a);
      if id.None? then None
      else Some(Finding(Or(Get(a, "module_name"), Get(a, "name")), Get(a, "severity"), id.value))
  }

  function AdvisoryFindings(py: Runtime, entries: seq<(string, Json)>): Option<seq<Finding>> {
    if entries == [] then Some([])
    else
      var n := |entries| - 1;
      var before, last := AdvisoryFindings(py, entries[..n]), AdvisoryFinding(py, entries[n].1);
      if before.None? || last.None? then None else Some(before.value + [last.value])
  }

  // ---- The `vulnerabilities` format ----

  function ItemAdvisory(item: seq<(string, Json)>): Json {
    Or(Get(item, "github_advisory_id"),
       Or(Get(item, "url"), Or(Get(item, "source"), Or(Get(item, "title"), Get(item, "name")))))
  }

  function ItemTitle(item: seq<(string, Json)>): Json {
    Or(Get(item, "title"), Or(Get(item, "url"), Or(Get(item, "advisory"), Get(item, "source"))))
  }

  /** What one element of `via` appends to the two lists: its advisory and its title. */
  function ViaItem(item: Json): seq<(Json, Json)> {
    match item
    case Obj(members) => [(ItemAdvisory(members), ItemTitle(members))]
    case Str(s) => [(item, item)]
    case _ => []
  }

  function ViaItems(items: seq<Json>): seq<(Json, Json)> {
    if items == [] then [] else ViaItems(items[..|items| - 1]) + ViaItem(items[|items| - 1])
  }

  function Via(via: Json): seq<(Json, Json)> {
    match via
    case List(items) => ViaItems(items)
    case Str(s) => [(via, via)]
    case _ => []
  }

  /** `"; ".join` of the truthy titles works only if they are all strings. */
  predicate Joinable(pairs: seq<(Json, Json)>) {
    forall i :: 0 <= i < |pairs| ==> Truthy(pairs[i].1) ==> pairs[i].1.Str?
  }

  function Yielded(name: string, severity: Json, pairs: seq<(Json, Json)>): seq<Finding> {
    if pairs == [] then []
    else
      var n := |pairs| - 1;
      Yielded(name, severity, pairs[..n])
      + (if Truthy(pairs[n].0) then [Finding(Str(name), severity, pairs[n].0)] else [])
  }

  function VulnerabilityFindings(name: string, vuln: Json): Option<seq<Finding>> {
    if !vuln.Obj? then None
    else
      var pairs := Via(Get(vuln.members, "via"));
      if Joinable(pairs) then Some(Yielded(name, Get(vuln.members, "severity"), pairs)) else None
  }

  function VulnerabilitiesFindings(entries: seq<(string, Json)>): Option<seq<Finding>> {
    if entries == [] then Some([])
    else
      var n := |entries| - 1;
      var before, last := VulnerabilitiesFindings(entries[..n]), VulnerabilityFindings(entries[n].0, entries[n].1);
      if before.None? || last.None? then None else Some(before.value + last.value)
  }

  function Members(data: Json): seq<(string, Json)> {
    match data case Obj(members) => members case _ => []
  }

  /** All findings of a report, in order; None where the script raises. */
  function Findings(py: Runtime, data: Json): Option<seq<Finding>> {
    if !data.Obj? then None
    else
      var a := AdvisoryFindings(py, Members(Get(data.members, "advisories")));
      var v := VulnerabilitiesFindings(Members(Get(data.members, "vulnerabilities")));
      if a.None? || v.None? then None else Some(a.value + v.value)
  }

  // ---- What is read and what is not ----

  /**
   * In the `vulnerabilities` format a vulnerability is reported exactly by its truthy advisories:
   * one without any yields nothing, whatever its severity.
   */
  lemma {:induction false} YieldedIff(name: string, severity: Json, pairs: seq<(Json, Json)>, f: Finding)
    ensures f in Yielded(name, severity, pairs)
       <==> f.name == Str(name) && f.severity == severity && Truthy(f.advisory)
            && Lists(pairs, f.advisory)
  {
    if pairs != [] {
      var n := |pairs| - 1;
      YieldedIff(name, severity, pairs[..n], f);
    }
  }

  lemma {:induction false} SilentIff(name: string, severity: Json, pairs: seq<(Json, Json)>)
    ensures Yielded(name, severity, pairs) == [] <==> forall i :: 0 <= i < |pairs| ==> !Truthy(pairs[i].0)
  {
    if pairs != [] {
      SilentIff(name, severity, pairs[..|pairs| - 1]);
    }
  }

  /** The first truthy value, or the last value if there is none: a chain of `or`. */
  predicate FirstTruthy(values: seq<Json>, x: Json) {
    && values != []
    && exists k :: (0 <= k < |values| && values[k] == x && (Truthy(x) || k == |values| - 1)
                    && forall j :: 0 <= j < k ==> !Truthy(values[j]))
  }

  lemma {:induction false} OrIsFirst(a: Json, rest: seq<Json>, x: Json)
    requires FirstTruthy(rest, x)
    ensures FirstTruthy([a] + rest, Or(a, x))
  {
    var values := [a] + rest;
    if Truthy(a) {
      assert values[0] == a;
    } else {
      var k :| (0 <= k < |rest| && rest[k] == x && (Truthy(x) || k == |rest| - 1)
                && forall j :: 0 <= j < k ==> !Truthy(rest[j]));
      assert values[k + 1] == x;
      assert forall j :: 0 < j < k + 1 ==> values[j] == rest[j - 1];
    }
  }

  function Gets(members: seq<(string, Json)>, keys: seq<string>): (r: seq<Json>)
    ensures |r| == |keys|
  {
    seq(|keys|, i requires 0 <= i < |keys| => Get(members, keys[i]))
  }

  const TITLE_KEYS := ["title", "url", "advisory", "source"]
  const ADVISORY_KEYS := ["github_advisory_id", "url", "source", "title", "name"]

  /** Advisory and title of a `via` object are the first truthy of five and four members. */
  lemma {:induction false} ItemsAreFirst(item: seq<(string, Json)>)
    ensures FirstTruthy(Gets(item, ADVISORY_KEYS), ItemAdvisory(item))
    ensures FirstTruthy(Gets(item, TITLE_KEYS), ItemTitle(item))
  {
    hide FirstTruthy, Or;
    FirstOfTwo(Get(item, "title"), Get(item, "name"));
    FirstOfTwo(Get(item, "advisory"), Get(item, "source"));
    var names, sources := [Get(item, "title"), Get(item, "name")], [Get(item, "advisory"), Get(item, "source")];
    OrIsFirst(Get(item, "source"), names, Or(Get(item, "title"), Get(item, "name")));
    OrIsFirst(Get(item, "url"), [Get(item, "source")] + names,
              Or(Get(item, "source"), Or(Get(item, "title"), Get(item, "name"))));
    OrIsFirst(Get(item, "github_advisory_id"), [Get(item, "url")] + ([Get(item, "source")] + names),
              Or(Get(item, "url"), Or(Get(item, "source"), Or(Get(item, "title"), Get(item, "name")))));
    OrIsFirst(Get(item, "url"), sources, Or(Get(item, "advisory"), Get(item, "source")));
    OrIsFirst(Get(item, "title"), [Get(item, "url")] + sources,
              Or(Get(item, "url"), Or(Get(item, "advisory"), Get(item, "source"))));
    assert Gets(item, ADVISORY_KEYS)
        == [Get(item, "github_advisory_id")] + ([Get(item, "url")] + ([Get(item, "source")] + names));
    assert Gets(item, TITLE_KEYS) == [Get(item, "title")] + ([Get(item, "url")] + sources);
  }

  lemma {:induction false} FirstOfTwo(a: Json, b: Json)
    ensures FirstTruthy([a, b], Or(a, b))
  {
    assert [a, b][0] == a && [a, b][1] == b;
  }

  // ---- One vulnerability ----

  /** A `via` object whose first truthy title candidate is no string. */
  predicate BadTitle(item: Json) {
    item.Obj? && Truthy(ItemTitle(item.members)) && !ItemTitle(item.members).Str?
  }

  /** The advisories a `via` value names, truthy or not. */
  ghost predicate Names(via: Json, advisory: Json) {
    match via
    case List(items) => NamedIn(items, advisory)
    case Str(_) => advisory == via
    case _ => false
  }

  ghost predicate NamedIn(items: seq<Json>, advisory: Json) {
    exists i :: 0 <= i < |items| && NamedBy(items[i], advisory)
  }

  ghost predicate Lists(pairs: seq<(Json, Json)>, advisory: Json) {
    exists k :: 0 <= k < |pairs| && pairs[k].0 == advisory
  }

  predicate NamedBy(item: Json, advisory: Json) {
    if item.Obj? then advisory == ItemAdvisory(item.members) else item.Str? && advisory == item
  }

  ghost predicate VulnerabilityRaises(vuln: Json) {
    || !vuln.Obj?
    || var via := Get(vuln.members, "via");
       via.List? && exists i :: 0 <= i < |via.items| && BadTitle(via.items[i])
  }

  lemma {:induction false} ViaItemsHold(items: seq<Json>)
    ensures !Joinable(ViaItems(items)) <==> exists i :: 0 <= i < |items| && BadTitle(items[i])
    ensures forall a :: Lists(ViaItems(items), a) <==> NamedIn(items, a)
  {
    hide ItemTitle, ItemAdvisory, BadTitle, Joinable, NamedBy, ViaItem, Lists;
    if items == [] {
      NothingListed();
    } else {
      var n := |items| - 1;
      ViaItemsHold(items[..n]);
      assert forall i :: 0 <= i < n ==> items[..n][i] == items[i];
      JoinableConcat(ViaItems(items[..n]), ViaItem(items[n]));
      OneItem(items[n]);
      forall a ensures Lists(ViaItems(items), a) <==> NamedIn(items, a) {
        NamedConcat(ViaItems(items[..n]), ViaItem(items[n]), a);
        assert NamedIn(items, a) <==> NamedIn(items[..n], a) || NamedBy(items[n], a);
      }
    }
  }

  lemma {:induction false} NothingListed()
    ensures Joinable([]) && forall a :: !Lists([], a)
  {
  }

  lemma {:induction false} JoinableConcat(s: seq<(Json, Json)>, t: seq<(Json, Json)>)
    ensures Joinable(s + t) <==> Joinable(s) && Joinable(t)
  {
    if Joinable(s + t) {
      assert forall i :: 0 <= i < |s| ==> (s + t)[i] == s[i];
      assert forall i :: 0 <= i < |t| ==> (s + t)[|s| + i] == t[i];
    }
  }

  lemma {:induction false} NamedConcat(s: seq<(Json, Json)>, t: seq<(Json, Json)>, a: Json)
    ensures Lists(s + t, a) <==> Lists(s, a) || Lists(t, a)
  {
    if k :| 0 <= k < |s| && s[k].0 == a {
      assert (s + t)[k].0 == a;
    }
    if k :| 0 <= k < |t| && t[k].0 == a {
      assert (s + t)[|s| + k].0 == a;
    }
  }

  lemma {:induction false} OneItem(item: Json)
    ensures !Joinable(ViaItem(item)) <==> BadTitle(item)
    ensures forall a :: Lists(ViaItem(item), a) <==> NamedBy(item, a)
  {
    hide ItemTitle, ItemAdvisory;
    if item.Obj? {
      assert ViaItem(item)[0].1 == ItemTitle(item.members);
    }
    if item.Obj? || item.Str? {
      assert |ViaItem(item)| == 1;
      assert NamedBy(item, ViaItem(item)[0].0);
    }
  }

  lemma {:induction false} ViaHolds(via: Json)
    ensures !Joinable(Via(via)) <==> via.List? && exists i :: 0 <= i < |via.items| && BadTitle(via.items[i])
    ensures forall a :: Lists(Via(via), a) <==> Names(via, a)
  {
    hide BadTitle, NamedIn, ViaItems;
    if via.List? {
      ViaItemsHold(via.items);
    } else if via.Str? {
      assert Via(via)[0].0 == via;
    }
  }

  /** When one vulnerability makes the script raise, and else which findings it yields. */
  lemma {:induction false} VulnerabilityExactly(name: string, vuln: Json)
    ensures VulnerabilityFindings(name, vuln).None? <==> VulnerabilityRaises(vuln)
    ensures VulnerabilityFindings(name, vuln).Some? ==> forall f :: f in VulnerabilityFindings(name, vuln).value <==>
      FoundIn(name, vuln, f)
  {
    hide BadTitle, Names, Via, Joinable;
    if vuln.Obj? {
      var via, severity := Get(vuln.members, "via"), Get(vuln.members, "severity");
      ViaHolds(via);
      forall f ensures f in Yielded(name, severity, Via(via)) <==> FoundIn(name, vuln, f) {
        YieldedIff(name, severity, Via(via), f);
      }
    }
  }

  /** A finding of one vulnerability: a truthy advisory its `via` names. */
  ghost predicate FoundIn(name: string, vuln: Json, f: Finding) {
    && vuln.Obj?
    && f.name == Str(name) && f.severity == Get(vuln.members, "severity")
    && Truthy(f.advisory) && Names(Get(vuln.members, "via"), f.advisory)
  }

  /** A numeric `source` counts as an advisory, but without another title it cannot be joined. */
  lemma {:induction false} NumericSource(items: seq<Json>, i: nat, name: string, severity: Json)
    requires i < |items| && items[i].Obj?
    requires Get(items[i].members, "source").Num? && Truthy(Get(items[i].members, "source"))
    requires !Truthy(Get(items[i].members, "title")) && !Truthy(Get(items[i].members, "url"))
    requires !Truthy(Get(items[i].members, "advisory"))
    ensures Truthy(ItemAdvisory(items[i].members))
    ensures VulnerabilityFindings(name, Obj([("severity", severity), ("via", List(items))])).None?
  {
    var vuln := Obj([("severity", severity), ("via", List(items))]);
    hide Via, Joinable, ViaItems, VulnerabilityFindings;
    assert vuln.members[1..][0] == ("via", List(items));
    assert Get(vuln.members, "via") == List(items);
    assert BadTitle(items[i]);
    VulnerabilityExactly(name, vuln);
  }

  // ---- One advisory ----

  /** Only a `cves` member that is truthy but neither list nor string cannot be subscripted. */
  ghost predicate AdvisoryRaises(advisory: Json) {
    || !advisory.Obj?
    || var a := advisory.members;
       && !Truthy(Get(a, "github_advisory_id")) && !Truthy(Get(a, "url"))
       && Truthy(Get(a, "cves")) && !Get(a, "cves").List? && !Get(a, "cves").Str?
  }

  /** The seven candidates for an identifier, in order; the third and fourth are computed. */
  function Candidates(py: Runtime, a: seq<(string, Json)>): seq<Json> {
    [ Get(a, "github_advisory_id"), Get(a, "url"),
      if FirstCve(a).Some? then FirstCve(a).value else Null,
      if Get(a, "id") == Null then Null else Str(py.Show(Get(a, "id"))),
      Get(a, "title"), Get(a, "advisory"), Get(a, "overview") ]
  }

  /** When one advisory makes the script raise, and else what it yields. */
  lemma {:induction false} AdvisoryExactly(py: Runtime, advisory: Json)
    ensures AdvisoryFinding(py, advisory).None? <==> AdvisoryRaises(advisory)
    ensures AdvisoryFinding(py, advisory).Some? ==>
      var f := AdvisoryFinding(py, advisory).value;
      && FirstTruthy(Gets(advisory.members, ["module_name", "name"]), f.name)
      && f.severity == Get(advisory.members, "severity")
      && FirstTruthy(Candidates(py, advisory.members), f.advisory)
  {
    if advisory.Obj? && AdvisoryFinding(py, advisory).Some? {
      var a := advisory.members;
      FirstOfTwo(Get(a, "module_name"), Get(a, "name"));
      assert Gets(a, ["module_name", "name"]) == [Get(a, "module_name"), Get(a, "name")];
      PickIsFirst(py, a);
    }
  }

  lemma {:induction false} PickIsFirst(py: Runtime, a: seq<(string, Json)>)
    requires PickAdvisoryID(py, a).Some?
    ensures FirstTruthy(Candidates(py, a), PickAdvisoryID(py, a).value)
  {
    hide Get, FirstCve;
    var c, x := Candidates(py, a), PickAdvisoryID(py, a).value;
    if Truthy(c[0]) {
      assert c[0] == x;
    } else if Truthy(c[1]) {
      assert c[1] == x;
    } else if Truthy(c[2]) {
      assert c[2] == x;
    } else if Truthy(c[3]) {
      assert c[3] == x;
    } else if Truthy(c[4]) {
      assert c[4] == x;
    } else if Truthy(c[5]) {
      assert c[5] == x;
    } else {
      assert c[6] == x;
    }
  }

  // ---- Whole reports ----

  lemma {:induction false} AdvisoriesInOrder(py: Runtime, entries: seq<(string, Json)>)
    ensures AdvisoryFindings(py, entries).None? <==> exists i :: 0 <= i < |entries| && AdvisoryRaises(entries[i].1)
    ensures AdvisoryFindings(py, entries).Some? ==>
      var fs := AdvisoryFindings(py, entries).value;
      |fs| == |entries| && forall i :: 0 <= i < |entries| ==> AdvisoryFinding(py, entries[i].1) == Some(fs[i])
  {
    hide AdvisoryFinding, AdvisoryRaises;
    if entries != [] {
      var n := |entries| - 1;
      AdvisoriesInOrder(py, entries[..n]);
      AdvisoryExactly(py, entries[n].1);
      assert forall i :: 0 <= i < n ==> entries[..n][i] == entries[i];
    }
  }

  /** The findings of a list of vulnerabilities are those of each in turn. */
  lemma {:induction false} VulnerabilitiesInOrder(s: seq<(string, Json)>, t: seq<(string, Json)>)
    ensures VulnerabilitiesFindings(s + t).None? <==>
      VulnerabilitiesFindings(s).None? || VulnerabilitiesFindings(t).None?
    ensures VulnerabilitiesFindings(s + t).Some? ==>
      VulnerabilitiesFindings(s + t).value == VulnerabilitiesFindings(s).value + VulnerabilitiesFindings(t).value
  {
    hide VulnerabilityFindings;
    if t == [] {
      assert s + t == s;
    } else {
      var n := |t| - 1;
      VulnerabilitiesInOrder(s, t[..n]);
      assert (s + t)[..|s| + n] == s + t[..n] && (s + t)[|s| + n] == t[n];
    }
  }

  lemma {:induction false} VulnerabilitiesExactly(entries: seq<(string, Json)>)
    ensures VulnerabilitiesFindings(entries).None? <==>
      exists i :: 0 <= i < |entries| && VulnerabilityRaises(entries[i].1)
    ensures VulnerabilitiesFindings(entries).Some? ==> forall f :: f in VulnerabilitiesFindings(entries).value <==>
      exists i :: 0 <= i < |entries| && FoundIn(entries[i].0, entries[i].1, f)
  {
    hide VulnerabilityFindings, VulnerabilityRaises, FoundIn;
    if entries != [] {
      var n := |entries| - 1;
      VulnerabilitiesExactly(entries[..n]);
      VulnerabilityExactly(entries[n].0, entries[n].1);
      assert forall i :: 0 <= i < n ==> entries[..n][i] == entries[i];
    }
  }

  /** The members of the two sections; a section that is no object counts as empty. */
  function Advisories(data: Json): seq<(string, Json)> {
    if data.Obj? then Members(Get(data.members, "advisories")) else []
  }

  function Vulnerabilities(data: Json): seq<(string, Json)> {
    if data.Obj? then Members(Get(data.members, "vulnerabilities")) else []
  }

  ghost predicate ReportRaises(data: Json) {
    || !data.Obj?
    || (exists i :: 0 <= i < |Advisories(data)| && AdvisoryRaises(Advisories(data)[i].1))
    || (exists i :: 0 <= i < |Vulnerabilities(data)| && VulnerabilityRaises(Vulnerabilities(data)[i].1))
  }

  ghost predicate Reported(py: Runtime, data: Json, f: Finding) {
    || (exists i :: 0 <= i < |Advisories(data)| && AdvisoryFinding(py, Advisories(data)[i].1) == Some(f))
    || (exists i :: 0 <= i < |Vulnerabilities(data)| &&
          FoundIn(Vulnerabilities(data)[i].0, Vulnerabilities(data)[i].1, f))
  }

  /** When a report makes the script raise, and else exactly which findings it yields. */
  lemma {:induction false} ReportExactly(py: Runtime, data: Json)
    ensures Findings(py, data).None? <==> ReportRaises(data)
    ensures Findings(py, data).Some? ==> forall f :: f in Findings(py, data).value <==> Reported(py, data, f)
  {
    hide AdvisoryFinding, AdvisoryRaises, VulnerabilityRaises, FoundIn;
    AdvisoriesInOrder(py, Advisories(data));
    VulnerabilitiesExactly(Vulnerabilities(data));
    if Findings(py, data).Some? {
      var a := AdvisoryFindings(py, Advisories(data)).value;
      forall f ensures f in a <==>
        exists i :: 0 <= i < |Advisories(data)| && AdvisoryFinding(py, Advisories(data)[i].1) == Some(f)
      {
        if i :| 0 <= i < |Advisories(data)| && AdvisoryFinding(py, Advisories(data)[i].1) == Some(f) {
          assert a[i] == f;
        }
      }
    }
  }

  /** A report yields nothing if and only if it lists no advisory and no `via` names a truthy one. */
  lemma {:induction false} SilentReport(py: Runtime, data: Json)
    ensures Findings(py, data) == Some([]) <==>
      && !ReportRaises(data) && Advisories(data) == []
      && forall i, a :: 0 <= i < |Vulnerabilities(data)| && Vulnerabilities(data)[i].1.Obj? && Truthy(a) ==>
        !Names(Get(Vulnerabilities(data)[i].1.members, "via"), a)
  {
    hide Findings, ReportRaises, Names;
    ReportExactly(py, data);
    if Findings(py, data) == Some([]) {
      forall i, a | 0 <= i < |Vulnerabilities(data)| && Vulnerabilities(data)[i].1.Obj? && Truthy(a)
        ensures !Names(Get(Vulnerabilities(data)[i].1.members, "via"), a)
      {
        var (name, vuln) := Vulnerabilities(data)[i];
        var f := Finding(Str(name), Get(vuln.members, "severity"), a);
        assert f !in Findings(py, data).value;
        assert !FoundIn(Vulnerabilities(data)[i].0, Vulnerabilities(data)[i].1, f);
      }
      AdvisoriesYield(py, data);
    } else if Findings(py, data).Some? {
      var f := Findings(py, data).value[0];
      assert f in Findings(py, data).value;
      assert Reported(py, data, f);
    }
  }

  /** Every advisory of a readable report yields one finding. */
  lemma {:induction false} AdvisoriesYield(py: Runtime, data: Json)
    requires Findings(py, data).Some?
    ensures |Findings(py, data).value| >= |Advisories(data)|
    ensures forall i :: 0 <= i < |Advisories(data)| ==>
      AdvisoryFinding(py, Advisories(data)[i].1) == Some(Findings(py, data).value[i])
  {
    hide AdvisoryFinding, AdvisoryRaises;
    AdvisoriesInOrder(py, Advisories(data));
  }
}
