/** The generator that reads findings out of a report. */
module ReportGenerator {
  import opened Collections
  import opened AuditReport
  import opened ReportReading

  method CollectVia(via: Json) returns (advisories: seq<Json>, titles: seq<Json>)
    ensures |advisories| == |titles| == |Via(via)|
    ensures forall i :: 0 <= i < |advisories| ==> Via(via)[i] == (advisories[i], titles[i])
  {
    hide ItemAdvisory, ItemTitle, ViaItems, Paired;
    advisories, titles := [], [];
    NothingPaired();
    if via.List? {
      var items := via.items;
      for i := 0 to |items|
        invariant |advisories| == |titles| && Paired(advisories, titles) == ViaItems(items[..i])
      {
        NextViaItem(items, i);
        if items[i].Obj? {
          NextPaired(advisories, titles, ItemAdvisory(items[i].members), ItemTitle(items[i].members));
          advisories := advisories + [ItemAdvisory(items[i].members)];
          titles := titles + [ItemTitle(items[i].members)];
        } else if items[i].Str? {
          NextPaired(advisories, titles, items[i], items[i]);
          advisories := advisories + [items[i]];
          titles := titles + [items[i]];
        }
      }
      assert items[..|items|] == items;
    } else if via.Str? {
      NextPaired(advisories, titles, via, via);
      advisories, titles := [via], [via];
    }
  }

  /** Two lists in step as a list of pairs. */
  function Paired(advisories: seq<Json>, titles: seq<Json>): (pairs: seq<(Json, Json)>)
    requires |advisories| == |titles|
    ensures |pairs| == |advisories|
    ensures forall i :: 0 <= i < |pairs| ==> pairs[i] == (advisories[i], titles[i])
  {
    seq(|advisories|, i requires 0 <= i < |advisories| == |titles| => (advisories[i], titles[i]))
  }

  lemma {:induction false} NothingPaired()
    ensures Paired([], []) == [] && ViaItems([]) == []
  {
  }

  lemma {:induction false} NextPaired(advisories: seq<Json>, titles: seq<Json>, a: Json, t: Json)
    requires |advisories| == |titles|
    ensures Paired(advisories + [a], titles + [t]) == Paired(advisories, titles) + [(a, t)]
  {
  }

  lemma {:induction false} NextViaItem(items: seq<Json>, i: nat)
    requires i < |items|
    ensures ViaItems(items[..i + 1]) == ViaItems(items[..i]) + ViaItem(items[i])
  {
    hide ViaItem;
    assert items[..i + 1][..i] == items[..i];
  }

  method IterVulnerability(name: string, vuln: Json) returns (r: Option<seq<Finding>>)
    ensures r == VulnerabilityFindings(name, vuln)
    ensures forall fs :: r == Some(fs) <==> VulnerabilityYields(name, vuln, fs)
    ensures r.None? <==> VulnerabilityRaises(vuln)
    ensures r.Some? ==> forall f :: f in r.value <==> FoundIn(name, vuln, f)
  {
    hide *;
    VulnerabilityExactly(name, vuln);
    forall fs ensures VulnerabilityFindings(name, vuln) == Some(fs) <==> VulnerabilityYields(name, vuln, fs) {
      VulnerabilityExactlyYields(name, vuln, fs);
    }
    FindingsOfOne(name, vuln);
    if !vuln.Obj? {
      return None;
    }
    var severity, via := Get(vuln.members, "severity"), Get(vuln.members, "via");
    var advisories, titles := CollectVia(via);
    for i := 0 to |titles|
      invariant forall k :: 0 <= k < i ==> Truthy(titles[k]) ==> titles[k].Str?
    {
      if Truthy(titles[i]) && !titles[i].Str? {
        NotJoined(Via(via), i);
        return None;
      }
    }
    Joined(Via(via));
    var yielded := [];
    YieldsNothing(name, severity, Via(via)[..0]);
    for i := 0 to |advisories|
      invariant yielded == Yielded(name, severity, Via(via)[..i])
    {
      assert Via(via)[..i + 1] == Via(via)[..i] + [Via(via)[i]];
      YieldedNext(name, severity, Via(via)[..i], Via(via)[i]);
      if Truthy(advisories[i]) {
        yielded := yielded + [Finding(Str(name), severity, advisories[i])];
      }
    }
    assert Via(via)[..|advisories|] == Via(via);
    r := Some(yielded);
  }

  lemma {:induction false} FindingsOfOne(name: string, vuln: Json)
    ensures !vuln.Obj? ==> VulnerabilityFindings(name, vuln).None?
    ensures vuln.Obj? ==>
      var pairs := Via(Get(vuln.members, "via"));
      VulnerabilityFindings(name, vuln)
      == if Joinable(pairs) then Some(Yielded(name, Get(vuln.members, "severity"), pairs)) else None
  {
  }

  lemma {:induction false} YieldsNothing(name: string, severity: Json, pairs: seq<(Json, Json)>)
    requires pairs == []
    ensures Yielded(name, severity, pairs) == []
  {
  }

  lemma {:induction false} NotJoined(pairs: seq<(Json, Json)>, i: nat)
    requires i < |pairs| && Truthy(pairs[i].1) && !pairs[i].1.Str?
    ensures !Joinable(pairs)
  {
  }

  lemma {:induction false} Joined(pairs: seq<(Json, Json)>)
    requires forall i :: 0 <= i < |pairs| ==> Truthy(pairs[i].1) ==> pairs[i].1.Str?
    ensures Joinable(pairs)
  {
  }

  method IterVulns(py: Runtime, data: Json) returns (r: Option<seq<Finding>>)
    ensures r == Findings(py, data)
    ensures forall fs :: r == Some(fs) <==> Yields(py, data, fs)
    ensures r.None? <==> ReportRaises(data)
    ensures r.Some? ==> forall f :: f in r.value <==> Reported(py, data, f)
  {
    hide *;
    ReportExactly(py, data);
    forall fs ensures Findings(py, data) == Some(fs) <==> Yields(py, data, fs) {
      ReportExactlyYields(py, data, fs);
    }
    FindingsOf(py, data);
    if !data.Obj? {
      return None;
    }
    var advisories := AuditReport.Members(Get(data.members, "advisories"));
    var yielded := [];
    NothingFound(py, advisories[..0]);
    for i := 0 to |advisories|
      invariant AdvisoryFindings(py, advisories[..i]) == Some(yielded)
    {
      assert advisories[..i + 1][..i] == advisories[..i];
      NextFinding(py, advisories[..i + 1]);
      var f := AdvisoryFinding(py, advisories[i].1);
      if f.None? {
        AdvisoriesRaise(py, advisories, i + 1);
        return None;
      }
      yielded := yielded + [f.value];
    }
    assert advisories[..|advisories|] == advisories;
    var vulnerabilities := AuditReport.Members(Get(data.members, "vulnerabilities"));
    var more := [];
    NothingFound(py, vulnerabilities[..0]);
    for i := 0 to |vulnerabilities|
      invariant VulnerabilitiesFindings(vulnerabilities[..i]) == Some(more)
    {
      assert vulnerabilities[..i + 1][..i] == vulnerabilities[..i];
      NextFindings(vulnerabilities[..i + 1]);
      var f := IterVulnerability(vulnerabilities[i].0, vulnerabilities[i].1);
      if f.None? {
        VulnerabilitiesRaise(vulnerabilities, i + 1);
        return None;
      }
      more := more + f.value;
    }
    assert vulnerabilities[..|vulnerabilities|] == vulnerabilities;
    r := Some(yielded + more);
  }

  lemma {:induction false} NothingFound(py: Runtime, entries: seq<(string, Json)>)
    requires entries == []
    ensures AdvisoryFindings(py, entries) == Some([]) && VulnerabilitiesFindings(entries) == Some([])
  {
  }

  lemma {:induction false} NextFinding(py: Runtime, entries: seq<(string, Json)>)
    requires entries != []
    ensures var n := |entries| - 1;
      var before, last := AdvisoryFindings(py, entries[..n]), AdvisoryFinding(py, entries[n].1);
      AdvisoryFindings(py, entries)
      == if before.None? || last.None? then None else Some(before.value + [last.value])
  {
  }

  lemma {:induction false} FindingsOf(py: Runtime, data: Json)
    ensures !data.Obj? ==> Findings(py, data).None?
    ensures data.Obj? ==>
      var a := AdvisoryFindings(py, AuditReport.Members(Get(data.members, "advisories")));
      var v := VulnerabilitiesFindings(AuditReport.Members(Get(data.members, "vulnerabilities")));
      Findings(py, data) == if a.None? || v.None? then None else Some(a.value + v.value)
  {
  }

  lemma {:induction false} AdvisoriesRaise(py: Runtime, entries: seq<(string, Json)>, i: nat)
    requires i <= |entries| && AdvisoryFindings(py, entries[..i]).None?
    ensures AdvisoryFindings(py, entries).None?
  {
    if i == |entries| {
      assert entries[..i] == entries;
    } else {
      assert entries[..|entries| - 1][..i] == entries[..i];
      AdvisoriesRaise(py, entries[..|entries| - 1], i);
    }
  }

  lemma {:induction false} VulnerabilitiesRaise(entries: seq<(string, Json)>, i: nat)
    requires i <= |entries| && VulnerabilitiesFindings(entries[..i]).None?
    ensures VulnerabilitiesFindings(entries).None?
  {
    if i == |entries| {
      assert entries[..i] == entries;
    } else {
      assert entries[..|entries| - 1][..i] == entries[..i];
      VulnerabilitiesRaise(entries[..|entries| - 1], i);
    }
  }
}
