/**
 * tools/check_dependencies.py: summarising the JSON reports of `npm audit`
 * and `pip-audit`, classifying failed or empty runs, and the exit status of
 * the script. The JSON value `json.loads` produced is an input; a Python
 * exception caught by the parsers becomes the summary's `error`, with the
 * parts of the summary filled in before it.
 */
module Audit {

  import opened Wrappers
  import opened Strings
  import opened Json
  import opened Subprocess

  const NpmSeverities: seq<string> := ["info", "low", "moderate", "high", "critical"]
  const PipSeverities: seq<string> := ["low", "medium", "high", "critical"]

  /** One entry of `vulnerable_packages`. */
  datatype Package =
    | NpmPackage(name: string, severity: Json, fixAvailable: Json, via: seq<string>)
    | PipPackage(packageName: Json, version: Json, level: string, id: Json, description: Json)

  /** The summary dict of a parser; `error` is `JNull` for None. */
  datatype Summary = Summary(
    tool: string,
    vulnerabilitiesFound: Json,
    severityCounts: seq<(string, Json)>,
    packages: seq<Package>,
    error: Json)

  function ZeroCounts(keys: seq<string>): seq<(string, Json)> {
    seq(|keys|, i requires 0 <= i < |keys| => (keys[i], JNum(0)))
  }

  const NpmInitial := Summary("npm", JNum(0), ZeroCounts(NpmSeverities), [], JNull)
  const PipInitial := Summary("pip", JNum(0), ZeroCounts(PipSeverities), [], JNull)

  function NpmError(msg: string): Json { JStr("Error parsing npm audit results: " + msg) }
  function PipError(msg: string): Json { JStr("Error parsing pip-audit results: " + msg) }

  // ---------------------------------------------------------------------
  // parse_npm_audit

  /** The exception of the first two lines of the `try` on a value that is
      not a dict: `"error" in v` fails on a number, a boolean or null, and
      `v.get` on a list or a string. */
  function NpmHeadException(j: Json): string {
    match j
    case JArr(_) => NoAttribute(j, "get")
    case JStr(_) => NoAttribute(j, "get")
    case _ => "argument of type '" + TypeName(j) + "' is not iterable"
  }

  /** What one `via` item contributes: a string is kept, a dict becomes
      "name (severity) - title", anything else is dropped. */
  function ViaEntry(item: Json): seq<string> {
    match item
    case JStr(s) => [s]
    case JObj(ms) =>
      [Str(Lookup(ms, "name").GetOr(JStr("?"))) + " (" + Str(Lookup(ms, "severity").GetOr(JStr("?"))) + ") - "
       + Str(Lookup(ms, "title").GetOr(JStr("?")))]
    case _ => []
  }

  /** The specification of the `via` loop. */
  function Via(items: seq<Json>): seq<string> {
    if items == [] then [] else Via(items[..|items| - 1]) + ViaEntry(items[|items| - 1])
  }

  /** The `via` loop. */
  method CollectVia(items: seq<Json>) returns (via: seq<string>)
    ensures via == Via(items)
  {
    via := [];
    for i := 0 to |items|
      invariant via == Via(items[..i])
    {
      assert items[..i + 1][..i] == items[..i];
      var item := items[i];
      if item.JStr? {
        via := via + [item.s];
      } else if item.JObj? {
        var ms := item.members;
        via := via + [Str(Lookup(ms, "name").GetOr(JStr("?"))) + " (" + Str(Lookup(ms, "severity").GetOr(JStr("?"))) + ") - "
                      + Str(Lookup(ms, "title").GetOr(JStr("?")))];
      }
    }
    assert items[..|items|] == items;
  }

  /** A `via` list of strings is kept as it is. */
  lemma {:induction false} ViaOfStrings(items: seq<Json>)
    requires forall k :: 0 <= k < |items| ==> items[k].JStr?
    ensures |Via(items)| == |items|
    ensures forall k :: 0 <= k < |items| ==> Via(items)[k] == items[k].s
  {
    if items != [] {
      var init := items[..|items| - 1];
      assert forall k :: 0 <= k < |init| ==> init[k] == items[k];
      ViaOfStrings(init);
    }
  }

  predicate Describable(item: Json) { item.JStr? || item.JObj? }

  /** Every string or dict item gives one line of `via`, and nothing else
      does. */
  lemma {:induction false} ViaLength(items: seq<Json>)
    ensures |Via(items)| <= |items|
    ensures |Via(items)| == |items| <==> forall k :: 0 <= k < |items| ==> Describable(items[k])
  {
    if items != [] {
      var init := items[..|items| - 1];
      ViaLength(init);
      assert forall k :: 0 <= k < |init| ==> init[k] == items[k];
      if !Describable(items[|items| - 1]) {
        assert |Via(items)| < |items|;
      }
    }
  }

  /** The record of one vulnerable package with dict details. */
  function NpmRecord(name: string, details: seq<(string, Json)>): Package {
    var via := Lookup(details, "via");
    NpmPackage(name,
      Lookup(details, "severity").GetOr(JStr("unknown")),
      Lookup(details, "fixAvailable").GetOr(JBool(false)),
      if via.Some? && via.value.JArr? then Via(via.value.items) else [])
  }

  /** The index of the first package whose details are not a dict (the
      `details.get` that raises). */
  function FirstNonDict(ms: seq<(string, Json)>): (k: nat)
    ensures k <= |ms|
    ensures forall i :: 0 <= i < k ==> ms[i].1.JObj?
    ensures k < |ms| ==> !ms[k].1.JObj?
  {
    if ms == [] || !ms[0].1.JObj? then 0
    else
      var k := FirstNonDict(ms[1..]);
      assert forall i :: 1 <= i < k + 1 ==> ms[i] == ms[1..][i - 1];
      k + 1
  }

  function NpmPackages(ms: seq<(string, Json)>): (ps: seq<Package>)
    ensures |ps| == FirstNonDict(ms)
  {
    var k := FirstNonDict(ms);
    seq(k, i requires 0 <= i < k => NpmRecord(ms[i].0, ms[i].1.members))
  }

  /** The specification of `parse_npm_audit`. */
  function NpmSummary(j: Json): (r: Summary)
    ensures r.tool == "npm"
    ensures |r.severityCounts| == 5
    ensures forall i :: 0 <= i < 5 ==> r.severityCounts[i].0 == NpmSeverities[i]
  {
    if !j.JObj? then NpmInitial.(error := NpmError(NpmHeadException(j)))
    else if HasKey(j, "error") then
      var e := Lookup(j.members, "error").GetOr(JObj([]));
      if !e.JObj? then NpmInitial.(error := NpmError(NoAttribute(e, "get")))
      else NpmInitial.(error := Lookup(e.members, "summary").GetOr(JStr("Unknown npm error")))
    else
      var metadata := Lookup(j.members, "metadata").GetOr(JObj([]));
      if !metadata.JObj? then NpmInitial.(error := NpmError(NoAttribute(metadata, "get")))
      else
        var sev := Lookup(metadata.members, "vulnerabilities").GetOr(JObj([]));
        if !sev.JObj? then NpmInitial.(error := NpmError(NoAttribute(sev, "get")))
        else
          var counts := seq(5, i requires 0 <= i < 5 => (NpmSeverities[i], Lookup(sev.members, NpmSeverities[i]).GetOr(JNum(0))));
          var header := NpmInitial.(vulnerabilitiesFound := Lookup(sev.members, "total").GetOr(JNum(0)), severityCounts := counts);
          var vulns := Lookup(j.members, "vulnerabilities").GetOr(JObj([]));
          if !vulns.JObj? then header.(error := NpmError(NoAttribute(vulns, "items")))
          else
            var ms := vulns.members;
            var k := FirstNonDict(ms);
            header.(packages := NpmPackages(ms),
                    error := if k < |ms| then NpmError(NoAttribute(ms[k].1, "get")) else JNull)
  }

  /** The package loop of `parse_npm_audit`: the records made, and the
      details that stopped it, if any. */
  method CollectNpmPackages(ms: seq<(string, Json)>) returns (packages: seq<Package>, stop: Option<Json>)
    ensures packages == NpmPackages(ms)
    ensures stop == if FirstNonDict(ms) < |ms| then Some(ms[FirstNonDict(ms)].1) else None
  {
    packages := [];
    for i := 0 to |ms|
      invariant i <= FirstNonDict(ms)
      invariant packages == seq(i, q requires 0 <= q < i => NpmRecord(ms[q].0, ms[q].1.members))
    {
      var (name, details) := ms[i];
      if !details.JObj? {
        return packages, Some(details);
      }
      var viaValue := Lookup(details.members, "via");
      var via := [];
      if viaValue.Some? && viaValue.value.JArr? {
        via := CollectVia(viaValue.value.items);
      }
      packages := packages + [NpmPackage(name,
                                         Lookup(details.members, "severity").GetOr(JStr("unknown")),
                                         Lookup(details.members, "fixAvailable").GetOr(JBool(false)),
                                         via)];
    }
    stop := None;
  }

  /** `parse_npm_audit(json_data)` */
  method ParseNpmAudit(j: Json) returns (r: Summary)
    ensures r == NpmSummary(j)
  {
    r := NpmInitial;
    if !j.JObj? {
      return r.(error := NpmError(NpmHeadException(j)));
    }
    if HasKey(j, "error") {
      var e := Lookup(j.members, "error").GetOr(JObj([]));
      if !e.JObj? {
        return r.(error := NpmError(NoAttribute(e, "get")));
      }
      return r.(error := Lookup(e.members, "summary").GetOr(JStr("Unknown npm error")));
    }
    var metadata := Lookup(j.members, "metadata").GetOr(JObj([]));
    if !metadata.JObj? {
      return r.(error := NpmError(NoAttribute(metadata, "get")));
    }
    var severities := Lookup(metadata.members, "vulnerabilities").GetOr(JObj([]));
    if !severities.JObj? {
      return r.(error := NpmError(NoAttribute(severities, "get")));
    }
    r := r.(vulnerabilitiesFound := Lookup(severities.members, "total").GetOr(JNum(0)));
    var counts := [];
    for i := 0 to 5
      invariant counts == seq(i, q requires 0 <= q < i => (NpmSeverities[q], Lookup(severities.members, NpmSeverities[q]).GetOr(JNum(0))))
    {
      counts := counts + [(NpmSeverities[i], Lookup(severities.members, NpmSeverities[i]).GetOr(JNum(0)))];
    }
    r := r.(severityCounts := counts);
    var vulns := Lookup(j.members, "vulnerabilities").GetOr(JObj([]));
    if !vulns.JObj? {
      return r.(error := NpmError(NoAttribute(vulns, "items")));
    }
    var packages, stop := CollectNpmPackages(vulns.members);
    r := r.(packages := packages);
    if stop.Some? {
      r := r.(error := NpmError(NoAttribute(stop.value, "get")));
    }
  }

  /** A report with an "error" key gives its summary (or the default text)
      and nothing else: no count, no package. */
  lemma NpmErrorKey(j: Json)
    requires j.JObj? && HasKey(j, "error")
    ensures var r := NpmSummary(j);
      r.vulnerabilitiesFound == JNum(0) && r.packages == [] && r.severityCounts == ZeroCounts(NpmSeverities)
    ensures var e := Lookup(j.members, "error").value;
      e.JObj? ==> NpmSummary(j).error == Lookup(e.members, "summary").GetOr(JStr("Unknown npm error"))
  {
  }

  /** When the metadata can be read, the five severity counts are copied from
      it, each defaulting to 0, and the total is its "total". */
  lemma NpmCounts(j: Json, sev: seq<(string, Json)>)
    requires j.JObj? && !HasKey(j, "error")
    requires Lookup(j.members, "metadata").GetOr(JObj([])).JObj?
    requires Lookup(Lookup(j.members, "metadata").GetOr(JObj([])).members, "vulnerabilities").GetOr(JObj([])) == JObj(sev)
    ensures NpmSummary(j).vulnerabilitiesFound == Lookup(sev, "total").GetOr(JNum(0))
    ensures forall i :: 0 <= i < 5 ==> NpmSummary(j).severityCounts[i].1 == Lookup(sev, NpmSeverities[i]).GetOr(JNum(0))
  {
  }

  /** With dict details throughout, there is one record per package, in the
      order of the report, named after it, and no error. */
  lemma NpmOneRecordPerPackage(j: Json, ms: seq<(string, Json)>)
    requires j.JObj? && !HasKey(j, "error")
    requires Lookup(j.members, "metadata").GetOr(JObj([])).JObj?
    requires Lookup(Lookup(j.members, "metadata").GetOr(JObj([])).members, "vulnerabilities").GetOr(JObj([])).JObj?
    requires Lookup(j.members, "vulnerabilities").GetOr(JObj([])) == JObj(ms)
    requires forall i :: 0 <= i < |ms| ==> ms[i].1.JObj?
    ensures |NpmSummary(j).packages| == |ms|
    ensures forall i :: 0 <= i < |ms| ==> NpmSummary(j).packages[i].name == ms[i].0
    ensures NpmSummary(j).error == JNull
  {
    assert FirstNonDict(ms) == |ms|;
  }

  /** Otherwise the records are those of the packages before the first one
      whose details are not a dict, and the error names that value's type. */
  lemma NpmStopsAtBadDetails(j: Json, ms: seq<(string, Json)>, k: nat)
    requires j.JObj? && !HasKey(j, "error")
    requires Lookup(j.members, "metadata").GetOr(JObj([])).JObj?
    requires Lookup(Lookup(j.members, "metadata").GetOr(JObj([])).members, "vulnerabilities").GetOr(JObj([])).JObj?
    requires Lookup(j.members, "vulnerabilities").GetOr(JObj([])) == JObj(ms)
    requires k < |ms| && !ms[k].1.JObj? && forall i :: 0 <= i < k ==> ms[i].1.JObj?
    ensures |NpmSummary(j).packages| == k
    ensures forall i :: 0 <= i < k ==> NpmSummary(j).packages[i].name == ms[i].0
    ensures NpmSummary(j).error == NpmError("'" + TypeName(ms[k].1) + "' object has no attribute 'get'")
  {
    assert FirstNonDict(ms) == k;
  }

  // ---------------------------------------------------------------------
  // parse_pip_audit

  /** The severity of a vulnerability, before `.lower()`. */
  function RawSeverity(v: Json): Json
    requires v.JObj?
  {
    Lookup(v.members, "severity").GetOr(JStr("unknown"))
  }

  /** A vulnerability the loop body gets through: a dict whose severity is a
      string. */
  predicate Handled(v: Json) {
    v.JObj? && RawSeverity(v).JStr?
  }

  function Severity(v: Json): string
    requires Handled(v)
  {
    Lower(RawSeverity(v).s)
  }

  /** The exception of the loop body on a vulnerability it cannot handle. */
  function VulnException(v: Json): string
    requires !Handled(v)
  {
    if !v.JObj? then NoAttribute(v, "get") else NoAttribute(RawSeverity(v), "lower")
  }

  function PipRecord(v: Json): Package
    requires Handled(v)
  {
    var ms := v.members;
    PipPackage(Lookup(ms, "name").GetOr(JStr("unknown_package")), Lookup(ms, "version").GetOr(JStr("unknown")),
               Severity(v), Lookup(ms, "id").GetOr(JStr("N/A")), Lookup(ms, "description").GetOr(JStr("N/A")))
  }

  function FirstUnhandled(vs: seq<Json>): (k: nat)
    ensures k <= |vs|
    ensures forall i :: 0 <= i < k ==> Handled(vs[i])
    ensures k < |vs| ==> !Handled(vs[k])
  {
    if vs == [] || !Handled(vs[0]) then 0
    else
      var k := FirstUnhandled(vs[1..]);
      assert forall i :: 1 <= i < k + 1 ==> vs[i] == vs[1..][i - 1];
      k + 1
  }

  /** How many of `vs` have severity `key`. */
  function CountSeverity(vs: seq<Json>, key: string): nat
    requires forall i :: 0 <= i < |vs| ==> Handled(vs[i])
  {
    if vs == [] then 0
    else CountSeverity(vs[..|vs| - 1], key) + (if Severity(vs[|vs| - 1]) == key then 1 else 0)
  }

  function PipCounts(vs: seq<Json>): seq<(string, Json)>
    requires forall i :: 0 <= i < |vs| ==> Handled(vs[i])
  {
    seq(4, i requires 0 <= i < 4 => (PipSeverities[i], JNum(CountSeverity(vs, PipSeverities[i]))))
  }

  function LenError(v: Json): string {
    "object of type '" + TypeName(v) + "' has no len()"
  }

  /** The specification of `parse_pip_audit`. */
  function PipSummary(j: Json): (r: Summary)
    ensures r.tool == "pip"
  {
    if !j.JObj? then PipInitial.(error := PipError(NoAttribute(j, "get")))
    else
      var v := Lookup(j.members, "vulnerabilities").GetOr(JArr([]));
      match Len(v)
      case None => PipInitial.(error := PipError(LenError(v)))
      case Some(n) =>
        var vs := Iter(v).value;
        var k := FirstUnhandled(vs);
        var done := vs[..k];
        Summary("pip", JNum(n), PipCounts(done), PipRecords(vs, k),
                if k < |vs| then PipError(VulnException(vs[k])) else JNull)
  }

  lemma CountStep(vs: seq<Json>, i: nat, key: string)
    requires i < |vs| && forall q :: 0 <= q <= i ==> Handled(vs[q])
    ensures CountSeverity(vs[..i + 1], key) == CountSeverity(vs[..i], key) + (if Severity(vs[i]) == key then 1 else 0)
  {
    assert vs[..i + 1][..i] == vs[..i];
  }

  /** The records of the first `k` vulnerabilities. */
  function PipRecords(vs: seq<Json>, k: nat): (r: seq<Package>)
    requires k <= |vs| && forall i :: 0 <= i < k ==> Handled(vs[i])
    ensures |r| == k && forall i :: 0 <= i < k ==> r[i] == PipRecord(vs[i])
  {
    seq(k, i requires 0 <= i < k => PipRecord(vs[i]))
  }

  lemma RecordsStep(vs: seq<Json>, i: nat)
    requires i < |vs| && forall q :: 0 <= q <= i ==> Handled(vs[q])
    ensures PipRecords(vs, i + 1) == PipRecords(vs, i) + [PipRecord(vs[i])]
  {
  }

  /** `counts` holds exactly the four severities, each counted over `done`. */
  predicate Tallied(counts: map<string, int>, done: seq<Json>)
    requires forall q :: 0 <= q < |done| ==> Handled(done[q])
  {
    && counts.Keys == {"low", "medium", "high", "critical"}
    && forall q :: 0 <= q < 4 ==> counts[PipSeverities[q]] == CountSeverity(done, PipSeverities[q])
  }

  /** Counting the severity of `vs[i]` keeps the counts those of `vs[..i + 1]`. */
  lemma TallyStep(counts: map<string, int>, vs: seq<Json>, i: nat)
    requires i < |vs| && forall q :: 0 <= q <= i ==> Handled(vs[q])
    requires Tallied(counts, vs[..i])
    ensures var s := Severity(vs[i]);
      Tallied(if s in counts then counts[s := counts[s] + 1] else counts, vs[..i + 1])
  {
    forall q | 0 <= q < 4 { CountStep(vs, i, PipSeverities[q]); }
  }

  lemma TalliedCounts(counts: map<string, int>, done: seq<Json>)
    requires forall q :: 0 <= q < |done| ==> Handled(done[q])
    requires Tallied(counts, done)
    ensures forall q :: 0 <= q < 4 ==> PipSeverities[q] in counts
    ensures PipCountsOf(counts) == PipCounts(done)
  {
  }

  /** The loop of `parse_pip_audit`: the severity counts, the records, and
      the vulnerability that stopped it, if any. */
  method CollectPipRecords(vs: seq<Json>) returns (counts: map<string, int>, packages: seq<Package>, stop: Option<Json>)
    ensures forall q :: 0 <= q < 4 ==> PipSeverities[q] in counts
    ensures PipCountsOf(counts) == PipCounts(vs[..FirstUnhandled(vs)])
    ensures packages == PipRecords(vs, FirstUnhandled(vs))
    ensures stop.Some? <==> FirstUnhandled(vs) < |vs|
    ensures stop.Some? ==> !Handled(stop.value) && stop.value == vs[FirstUnhandled(vs)]
  {
    counts := map["low" := 0, "medium" := 0, "high" := 0, "critical" := 0];
    packages := [];
    for i := 0 to |vs|
      invariant i <= FirstUnhandled(vs)
      invariant Tallied(counts, vs[..i])
      invariant packages == PipRecords(vs, i)
    {
      var vuln := vs[i];
      if !Handled(vuln) {
        assert vs[..FirstUnhandled(vs)] == vs[..i];
        TalliedCounts(counts, vs[..i]);
        return counts, packages, Some(vuln);
      }
      TallyStep(counts, vs, i);
      RecordsStep(vs, i);
      var severity := Severity(vuln);
      if severity in counts {
        counts := counts[severity := counts[severity] + 1];
      }
      packages := packages + [PipRecord(vuln)];
    }
    assert vs[..|vs|] == vs;
    TalliedCounts(counts, vs);
    stop := None;
  }

  /** `parse_pip_audit(json_data)` */
  method ParsePipAudit(j: Json) returns (r: Summary)
    ensures r == PipSummary(j)
  {
    r := PipInitial;
    if !j.JObj? {
      return r.(error := PipError(NoAttribute(j, "get")));
    }
    var v := Lookup(j.members, "vulnerabilities").GetOr(JArr([]));
    var n := Len(v);
    if n.None? {
      return r.(error := PipError(LenError(v)));
    }
    r := r.(vulnerabilitiesFound := JNum(n.value));
    var vs := Iter(v).value;
    var counts, packages, stop := CollectPipRecords(vs);
    r := r.(severityCounts := PipCountsOf(counts), packages := packages);
    if stop.Some? {
      r := r.(error := PipError(VulnException(stop.value)));
    }
  }

  /** The `severity_counts` dict, in its key order. */
  function PipCountsOf(counts: map<string, int>): seq<(string, Json)>
    requires forall q :: 0 <= q < 4 ==> PipSeverities[q] in counts
  {
    seq(4, i requires 0 <= i < 4 => (PipSeverities[i], JNum(counts[PipSeverities[i]])))
  }

  /** When the vulnerabilities can be measured, `vulnerabilities_found` is
      their number, there is a record for each one handled, in order, and
      they are all handled unless the error says otherwise. */
  lemma PipFound(j: Json, v: Json)
    requires j.JObj? && Lookup(j.members, "vulnerabilities").GetOr(JArr([])) == v && Len(v).Some?
    ensures PipSummary(j).vulnerabilitiesFound == JNum(Len(v).value)
    ensures PipSummary(j).error == JNull ==> |PipSummary(j).packages| == Len(v).value
  {
  }

  /** The sum of the four counts of `vs`. */
  function KnownSeverities(vs: seq<Json>): nat
    requires forall i :: 0 <= i < |vs| ==> Handled(vs[i])
  {
    CountSeverity(vs, "low") + CountSeverity(vs, "medium") + CountSeverity(vs, "high") + CountSeverity(vs, "critical")
  }

  lemma {:induction false} KnownAtMostAll(vs: seq<Json>)
    requires forall i :: 0 <= i < |vs| ==> Handled(vs[i])
    ensures KnownSeverities(vs) <= |vs|
  {
    if vs != [] {
      var init := vs[..|vs| - 1];
      assert forall i :: 0 <= i < |init| ==> init[i] == vs[i];
      KnownAtMostAll(init);
    }
  }

  /** Severities outside the four keys are not counted, so the counts never
      add up to more than `vulnerabilities_found`. */
  lemma PipCountsBounded(j: Json)
    requires PipSummary(j).vulnerabilitiesFound.JNum?
    ensures var r := PipSummary(j);
      |r.severityCounts| == 4 &&
      (forall i :: 0 <= i < 4 ==> r.severityCounts[i].1.JNum?) &&
      r.severityCounts[0].1.n + r.severityCounts[1].1.n + r.severityCounts[2].1.n + r.severityCounts[3].1.n
        <= r.vulnerabilitiesFound.n
  {
    if j.JObj? {
      var v := Lookup(j.members, "vulnerabilities").GetOr(JArr([]));
      if Len(v).Some? {
        var vs := Iter(v).value;
        var k := FirstUnhandled(vs);
        KnownAtMostAll(vs[..k]);
      }
    }
  }

  // ---------------------------------------------------------------------
  // run_audit and the exit status.

  /** `AUDIT_COMMANDS[manager][0]` */
  function AuditTool(manager: string): string {
    if manager == "npm" then "npm" else "pip-audit"
  }

  predicate Supported(manager: string) { manager == "npm" || manager == "pip" }

  /** What `json.loads(output)` gave: a value or the decoder's message. */
  datatype Decoded = Decoded(value: Json) | DecodeError(message: string)

  datatype AuditResult =
    | Parsed(summary: Summary)
    | NoOutput(tool: string)
    | Failed(tool: string, error: string)

  const NoOutputMessage := "Command ran successfully, no JSON output produced (potentially no dependencies?)."

  /** The error of a run that printed nothing and exited non-zero. */
  function SilentFailure(manager: string, code: int, err: string): string {
    if manager == "pip" && (Contains(err, "command not found") || Contains(err, "'pip-audit' is not recognized"))
    then "'pip-audit' command not found. Please install it (pip install pip-audit)."
    else "Command failed with exit code " + IntToString(code) + ". Stderr: " + Strip(err)
  }

  /** `run_audit(manager)`, with `proc` the outcome of the audit command and
      `decoded` what `json.loads` makes of its output. */
  method RunAudit(manager: string, proc: Proc, decoded: Decoded) returns (r: AuditResult)
    ensures !Supported(manager) ==> r == Failed(manager, "Unsupported package manager type.")
    ensures Supported(manager) && proc.NotFound? ==>
      r == Failed(manager, "Command '" + AuditTool(manager) + "' not found. Is it installed and in PATH?")
    ensures Supported(manager) && proc.Exited? && IsBlank(proc.stdout) ==>
      r == (if proc.code != 0 then Failed(manager, SilentFailure(manager, proc.code, proc.stderr)) else NoOutput(manager))
    ensures Supported(manager) && proc.Exited? && !IsBlank(proc.stdout) ==>
      r == match decoded
           case DecodeError(msg) => Failed(manager, "Failed to decode JSON output: " + msg + ". Raw output: " + Take(proc.stdout, 500))
           case Decoded(j) => Parsed(if manager == "npm" then NpmSummary(j) else PipSummary(j))
  {
    if !Supported(manager) {
      return Failed(manager, "Unsupported package manager type.");
    }
    if proc.NotFound? {
      return Failed(manager, "Command '" + AuditTool(manager) + "' not found. Is it installed and in PATH?");
    }
    var output, err := proc.stdout, proc.stderr;
    if Strip(output) == [] && proc.code != 0 {
      var message := "Command failed with exit code " + IntToString(proc.code) + ". Stderr: " + Strip(err);
      if manager == "pip" && (Contains(err, "command not found") || Contains(err, "'pip-audit' is not recognized")) {
        message := "'pip-audit' command not found. Please install it (pip install pip-audit).";
      }
      return Failed(manager, message);
    }
    if Strip(output) == [] && proc.code == 0 {
      return NoOutput(manager);
    }
    if decoded.DecodeError? {
      return Failed(manager, "Failed to decode JSON output: " + decoded.message + ". Raw output: " + Take(output, 500));
    }
    var summary;
    if manager == "npm" {
      summary := ParseNpmAudit(decoded.value);
    } else {
      summary := ParsePipAudit(decoded.value);
    }
    r := Parsed(summary);
  }

  /** The `error` of the printed result, and `vulnerabilities_found` with
      its default 0. */
  function ErrorOf(r: AuditResult): Json {
    match r
    case Parsed(s) => s.error
    case NoOutput(_) => JNull
    case Failed(_, e) => JStr(e)
  }

  function FoundOf(r: AuditResult): Json {
    if r.Parsed? then r.summary.vulnerabilitiesFound else JNum(0)
  }

  /** Lines 167-170: `error` is truthy, or `vulnerabilities_found > 0`.
      Comparing a value that is not a number (or a boolean) with 0 raises a
      TypeError, which ends the script with status 1. */
  function ExitStatus(r: AuditResult): (code: int)
    ensures code == 0 || code == 1
  {
    if Truthy(ErrorOf(r)) then 1
    else match FoundOf(r)
      case JNum(n) => if n > 0 then 1 else 0
      case JBool(b) => if b then 1 else 0
      case _ => 1
  }

  /** The script ends with status 0 exactly when there is no error and no
      vulnerability. */
  lemma ExitZeroIff(r: AuditResult)
    ensures ExitStatus(r) == 0 <==>
      !Truthy(ErrorOf(r)) &&
      ((FoundOf(r).JNum? && FoundOf(r).n <= 0) || FoundOf(r) == JBool(false))
  {
  }

  /** Every failure of `run_audit` carries a non-empty message, so it ends
      the script with status 1; a silent successful run ends it with 0. */
  lemma RunOutcomeStatus(r: AuditResult)
    ensures r.Failed? && r.error != [] ==> ExitStatus(r) == 1
    ensures r.NoOutput? ==> ExitStatus(r) == 0
  {
  }

  lemma SilentFailureNotEmpty(manager: string, code: int, err: string)
    ensures SilentFailure(manager, code, err) != []
  {
  }

  /** `check_dependencies.py <manager>`: the manager name is lower-cased; a
      wrong number of arguments gives no result and status 1. */
  method CheckDependencies(args: seq<string>, proc: Proc, decoded: Decoded) returns (r: Option<AuditResult>, exit: int)
    ensures |args| != 1 ==> r.None? && exit == 1
    ensures |args| == 1 ==> r.Some? && exit == ExitStatus(r.value)
    ensures |args| == 1 && !Supported(Lower(args[0])) ==> exit == 1
    ensures |args| == 1 && Supported(Lower(args[0])) && proc.NotFound? ==> exit == 1
    ensures |args| == 1 && Supported(Lower(args[0])) && proc.Exited? && IsBlank(proc.stdout) ==>
      (exit == 0 <==> proc.code == 0)
  {
    if |args| != 1 {
      return None, 1;
    }
    var manager := Lower(args[0]);
    var result := RunAudit(manager, proc, decoded);
    if proc.Exited? {
      SilentFailureNotEmpty(manager, proc.code, proc.stderr);
    }
    r := Some(result);
    exit := ExitStatus(result);
  }
}
