/**
 * tools/analyze_log.py: the summary of one request log, a JSON list of
 * agent entries. Timestamp parsing (`datetime.fromisoformat`, then
 * `strptime` without fractional seconds) is the parameter `parseTime`, which
 * maps a timestamp string to an instant or to `None` when neither format
 * applies; the log file is given as what `json.load` made of it.
 */
module LogAnalysis {

  import opened Wrappers
  import opened Strings
  import opened Sorting
  import opened Json

  /** What `parse_log_entry` keeps of an entry. */
  datatype Parsed = Parsed(agentRole: Json, status: Json, nextAgent: Json, timestamp: Option<int>, error: Json)

  // ---------------------------------------------------------------------
  // parse_log_entry

  /** The error an observation signals, if any: a string mentioning
      "error" or "failed" in any case is the error itself; a dict whose
      `type` is "error" gives its `message`, or a default. */
  function ObservationError(obs: Json): Option<Json> {
    if obs.JStr? && (Contains(Lower(obs.s), "error") || Contains(Lower(obs.s), "failed")) then Some(obs)
    else if obs.JObj? && Get(obs, "type", JNull) == Some(JStr("error")) then
      Get(obs, "message", JStr("Unknown error in observation"))
    else None
  }

  /** The error of the first observation that signals one; `None` (JSON
      null) when none does. */
  function FirstError(obs: seq<Json>): Json {
    if obs == [] then JNull
    else match ObservationError(obs[0])
      case Some(e) => e
      case None => FirstError(obs[1..])
  }

  /** The observation scan: `entry.get("observations", [])` iterated; a
      value that cannot be iterated raises, which the entry's `except`
      swallows, leaving no error. */
  function ObservedError(entry: Json): Json
    requires entry.JObj?
  {
    match Iter(Get(entry, "observations", JArr([])).value)
    case Some(obs) => FirstError(obs)
    case None => JNull
  }

  /** `parse_log_entry(entry)`; `None` when `entry` is not a dict, whose
      `.get` raises outside the entry's `try`. A truthy timestamp that is
      not a string, or a string neither format accepts, raises inside the
      `try`: the observation scan is then skipped. */
  function EntryOf(entry: Json, parseTime: string -> Option<int>): Option<Parsed> {
    if !entry.JObj? then None
    else
      var base := Parsed(Get(entry, "agentRole", JStr("UnknownAgent")).value, Get(entry, "status", JStr("unknown")).value,
                         Get(entry, "nextAgent", JNull).value, None, JNull);
      var ts := Get(entry, "timestamp", JNull).value;
      if !Truthy(ts) then Some(base.(error := ObservedError(entry)))
      else if !ts.JStr? || parseTime(ts.s).None? then Some(base)
      else Some(base.(timestamp := parseTime(ts.s), error := ObservedError(entry)))
  }

  /** `parse_log_entry(entry)`, scanning the observations until the first
      one that signals an error. */
  method ParseLogEntry(entry: Json, parseTime: string -> Option<int>) returns (r: Option<Parsed>)
    ensures r == EntryOf(entry, parseTime)
  {
    if !entry.JObj? {
      return None;
    }
    var parsed := Parsed(Get(entry, "agentRole", JStr("UnknownAgent")).value, Get(entry, "status", JStr("unknown")).value,
                         Get(entry, "nextAgent", JNull).value, None, JNull);
    var ts := Get(entry, "timestamp", JNull).value;
    if Truthy(ts) {
      if !ts.JStr? {
        return Some(parsed);
      }
      var instant := parseTime(ts.s);
      if instant.None? {
        return Some(parsed);
      }
      parsed := parsed.(timestamp := instant);
    }
    var observations := Iter(Get(entry, "observations", JArr([])).value);
    if observations.None? {
      return Some(parsed);
    }
    var found := ScanObservations(observations.value);
    if found.Some? {
      parsed := parsed.(error := found.value);
    }
    return Some(parsed);
  }

  /** The loop over the observations, stopping at the first that signals
      an error. */
  method ScanObservations(obs: seq<Json>) returns (found: Option<Json>)
    ensures found.Some? ==> found.value == FirstError(obs)
    ensures found.None? ==> FirstError(obs) == JNull
  {
    var i := 0;
    while i < |obs|
      invariant 0 <= i <= |obs|
      invariant FirstError(obs) == FirstError(obs[i..])
    {
      assert obs[i..][1..] == obs[i + 1..];
      found := ObservationError(obs[i]);
      if found.Some? {
        return;
      }
      i := i + 1;
    }
    found := None;
  }

  /** The defaults of the kept fields: a missing `agentRole` is
      "UnknownAgent", a missing `status` "unknown", a missing `nextAgent`
      null; a present field is kept as it is. */
  lemma EntryDefaults(ms: seq<(string, Json)>, parseTime: string -> Option<int>)
    ensures var p := EntryOf(JObj(ms), parseTime).value;
      && p.agentRole == (match Lookup(ms, "agentRole") case Some(v) => v case None => JStr("UnknownAgent"))
      && p.status == (match Lookup(ms, "status") case Some(v) => v case None => JStr("unknown"))
      && p.nextAgent == (match Lookup(ms, "nextAgent") case Some(v) => v case None => JNull)
  {
  }

  /** The error of an entry is that of the first observation signalling
      one: every earlier observation signals none, and later ones are not
      looked at. */
  lemma {:induction false} FirstErrorIsFirst(obs: seq<Json>)
    ensures (forall k :: 0 <= k < |obs| ==> ObservationError(obs[k]).None?) ==> FirstError(obs) == JNull
    ensures forall k :: 0 <= k < |obs| && ObservationError(obs[k]).Some? && (forall j :: 0 <= j < k ==> ObservationError(obs[j]).None?) ==>
      FirstError(obs) == ObservationError(obs[k]).value
  {
    if obs != [] {
      FirstErrorIsFirst(obs[1..]);
      forall k | 0 <= k < |obs| && ObservationError(obs[k]).Some? && (forall j :: 0 <= j < k ==> ObservationError(obs[j]).None?)
        ensures FirstError(obs) == ObservationError(obs[k]).value
      {
        if k > 0 {
          assert obs[k] == obs[1..][k - 1];
          forall j | 0 <= j < k - 1 ensures ObservationError(obs[1..][j]).None? {
            assert obs[1..][j] == obs[j + 1];
          }
        }
      }
      if forall k :: 0 <= k < |obs| ==> ObservationError(obs[k]).None? {
        assert forall k :: 0 <= k < |obs[1..]| ==> obs[1..][k] == obs[k + 1];
      }
    }
  }

  // ---------------------------------------------------------------------
  // Ordering the entries by time.

  /** The sort key of a valid entry. */
  function Time(p: Parsed): int { p.timestamp.GetOr(0) }

  predicate TimeSorted(s: seq<Parsed>) {
    forall i, j :: 0 <= i < j < |s| ==> Time(s[i]) <= Time(s[j])
  }

  /** Inserts `x` after every entry that is not later than it. */
  function InsertByTime(x: Parsed, s: seq<Parsed>): (r: seq<Parsed>)
    requires TimeSorted(s)
    ensures TimeSorted(r)
    ensures multiset(r) == multiset(s) + multiset{x}
    ensures |r| == |s| + 1
  {
    if s == [] then [x]
    else if Time(x) < Time(s[0]) then [x] + s
    else
      var t := InsertByTime(x, s[1..]);
      assert multiset(s) == multiset{s[0]} + multiset(s[1..]) by { assert s == [s[0]] + s[1..]; }
      InsertedBehind(x, s, t);
      [s[0]] + t
  }

  lemma InsertedBehind(x: Parsed, s: seq<Parsed>, t: seq<Parsed>)
    requires TimeSorted(s) && s != [] && Time(x) >= Time(s[0])
    requires TimeSorted(t) && multiset(t) == multiset(s[1..]) + multiset{x}
    ensures TimeSorted([s[0]] + t)
  {
    forall j | 0 <= j < |t| ensures Time(s[0]) <= Time(t[j]) {
      assert t[j] in multiset(t);
      if t[j] != x {
        assert t[j] in multiset(s[1..]);
        var k :| 0 <= k < |s[1..]| && s[1..][k] == t[j];
        assert s[k + 1] == t[j];
      }
    }
  }

  /** `valid_entries.sort(key=lambda x: x["timestamp"])`: a stable sort,
      written as insertion of each entry in input order. */
  function SortByTime(ps: seq<Parsed>): (r: seq<Parsed>)
    ensures TimeSorted(r)
    ensures multiset(r) == multiset(ps)
    ensures |r| == |ps|
  {
    if ps == [] then []
    else
      assert ps == ps[..|ps| - 1] + [ps[|ps| - 1]];
      InsertByTime(ps[|ps| - 1], SortByTime(ps[..|ps| - 1]))
  }

  /** The index of the last entry, in input order, with the latest time. */
  function LastLatest(ps: seq<Parsed>): (k: nat)
    requires ps != []
    ensures k < |ps|
    ensures forall i :: 0 <= i < |ps| ==> Time(ps[i]) <= Time(ps[k])
    ensures forall i :: k < i < |ps| ==> Time(ps[i]) < Time(ps[k])
  {
    if |ps| == 1 then 0
    else
      var j := LastLatest(ps[..|ps| - 1]);
      assert forall i :: 0 <= i < |ps| - 1 ==> ps[i] == ps[..|ps| - 1][i];
      if Time(ps[|ps| - 1]) >= Time(ps[j]) then |ps| - 1 else j
  }

  /** The earliest time of the entries. */
  function EarliestTime(ps: seq<Parsed>): (t: int)
    requires ps != []
    ensures forall i :: 0 <= i < |ps| ==> t <= Time(ps[i])
  {
    if |ps| == 1 then Time(ps[0])
    else
      var t := EarliestTime(ps[1..]);
      assert forall i :: 1 <= i < |ps| ==> ps[i] == ps[1..][i - 1];
      if Time(ps[0]) <= t then Time(ps[0]) else t
  }

  /** The earliest time is the time of one of the entries. */
  lemma {:induction false} EarliestAttained(ps: seq<Parsed>) returns (i: nat)
    requires ps != []
    ensures i < |ps| && Time(ps[i]) == EarliestTime(ps)
  {
    if |ps| == 1 {
      i := 0;
    } else {
      var j := EarliestAttained(ps[1..]);
      i := if Time(ps[0]) <= EarliestTime(ps[1..]) then 0 else j + 1;
    }
  }

  lemma {:induction false} InsertAtEnd(x: Parsed, s: seq<Parsed>)
    requires TimeSorted(s)
    requires forall i :: 0 <= i < |s| ==> Time(s[i]) <= Time(x)
    ensures InsertByTime(x, s) == s + [x]
  {
    if s != [] {
      InsertAtEnd(x, s[1..]);
      assert [s[0]] + (s[1..] + [x]) == s + [x];
    }
  }

  lemma {:induction false} InsertBeforeLast(x: Parsed, s: seq<Parsed>)
    requires TimeSorted(s) && s != []
    requires Time(x) < Time(s[|s| - 1])
    ensures InsertByTime(x, s)[|s|] == s[|s| - 1]
  {
    if Time(x) >= Time(s[0]) {
      InsertBeforeLast(x, s[1..]);
    }
  }

  /** After the stable sort, the last entry is the last one in input order
      among those with the latest time: the one `finalStatus` and
      `finalNextAgent` are read from. */
  lemma {:induction false} SortedLast(ps: seq<Parsed>)
    requires ps != []
    ensures SortByTime(ps)[|ps| - 1] == ps[LastLatest(ps)]
  {
    var init := ps[..|ps| - 1];
    var x := ps[|ps| - 1];
    if init == [] {
      assert SortByTime(ps) == [x];
    } else {
      var j := LastLatest(init);
      assert SortByTime(ps) == InsertByTime(x, SortByTime(init));
      assert ps[j] == init[j];
      SortedLast(init);
      InsertLast(init, x);
    }
  }

  /** Inserting `x` after sorting `init`: the last entry is `x` when it is
      no earlier than the latest of `init`, and stays that latest otherwise. */
  lemma InsertLast(init: seq<Parsed>, x: Parsed)
    requires init != [] && SortByTime(init)[|init| - 1] == init[LastLatest(init)]
    ensures InsertByTime(x, SortByTime(init))[|init|] ==
      if Time(x) >= Time(init[LastLatest(init)]) then x else init[LastLatest(init)]
  {
    var s := SortByTime(init);
    if Time(x) >= Time(init[LastLatest(init)]) {
      SortedNotAfter(init, x);
      InsertAtEnd(x, s);
    } else {
      InsertBeforeLast(x, s);
    }
  }

  /** When `x` is no earlier than the latest of `init`, no entry of the
      sorted `init` is later than `x`. */
  lemma SortedNotAfter(init: seq<Parsed>, x: Parsed)
    requires init != [] && Time(x) >= Time(init[LastLatest(init)])
    ensures forall i :: 0 <= i < |SortByTime(init)| ==> Time(SortByTime(init)[i]) <= Time(x)
  {
    var s := SortByTime(init);
    forall i | 0 <= i < |s| ensures Time(s[i]) <= Time(x) {
      assert s[i] in multiset(init);
      var k :| 0 <= k < |init| && init[k] == s[i];
    }
  }

  /** After the sort, the first entry has the earliest time. */
  lemma SortedFirst(ps: seq<Parsed>)
    requires ps != []
    ensures Time(SortByTime(ps)[0]) == EarliestTime(ps)
  {
    var s := SortByTime(ps);
    assert s[0] in multiset(ps);
    var k :| 0 <= k < |ps| && ps[k] == s[0];
    assert EarliestTime(ps) <= Time(s[0]);
    var i := EarliestAttained(ps);
    assert ps[i] in multiset(s);
    var m :| 0 <= m < |s| && s[m] == ps[i];
    assert Time(s[0]) <= Time(s[m]);
  }

  // ---------------------------------------------------------------------
  // analyze_log_file

  /** What `json.load` made of `logs/<requestId>.json`. */
  datatype LogFile =
    | Missing
    | Undecodable(reason: string)
    | Decoded(data: Json)

  /** The summary, without `durationSeconds`. */
  datatype Summary = Summary(
    requestId: string, logFile: string, found: bool, entryCount: nat,
    agentsUsed: seq<string>, startTime: Option<int>, endTime: Option<int>,
    finalStatus: Json, finalNextAgent: Json, errorsEncountered: seq<Json>, error: Option<string>)

  function LogPath(requestId: string): string { "logs/" + requestId + ".json" }

  function Initial(requestId: string): Summary {
    Summary(requestId, LogPath(requestId), false, 0, [], None, None, JStr("Unknown"), JNull, [], None)
  }

  const Unexpected := "An unexpected error occurred during analysis: "

  datatype ParseOutcome = AllParsed(entries: seq<Parsed>) | FailedAt(entry: Json)

  /** `[parse_log_entry(entry) for entry in log_data]`: stops at the first
      entry that is not a dict. */
  function ParseAll(items: seq<Json>, parseTime: string -> Option<int>): (o: ParseOutcome)
    ensures o.AllParsed? ==> |o.entries| == |items|
  {
    if items == [] then AllParsed([])
    else match ParseAll(items[..|items| - 1], parseTime)
      case FailedAt(e) => FailedAt(e)
      case AllParsed(ps) =>
        match EntryOf(items[|items| - 1], parseTime)
        case None => FailedAt(items[|items| - 1])
        case Some(p) => AllParsed(ps + [p])
  }

  /** A failure in a prefix is the failure of the whole list. */
  lemma {:induction false} ParseAllFails(items: seq<Json>, i: nat, parseTime: string -> Option<int>)
    requires i <= |items| && ParseAll(items[..i], parseTime).FailedAt?
    ensures ParseAll(items, parseTime) == ParseAll(items[..i], parseTime)
    decreases |items| - i
  {
    if i < |items| {
      assert items[..i + 1][..i] == items[..i];
      ParseAllFails(items, i + 1, parseTime);
    } else {
      assert items[..i] == items;
    }
  }

  /** Every list of dicts parses, one record per entry. */
  lemma {:induction false} DictsParse(items: seq<Json>, parseTime: string -> Option<int>)
    requires forall k :: 0 <= k < |items| ==> items[k].JObj?
    ensures ParseAll(items, parseTime).AllParsed?
  {
    if items != [] {
      DictsParse(items[..|items| - 1], parseTime);
    }
  }

  /** `[p for p in parsed_entries if p["timestamp"]]` */
  function Valid(ps: seq<Parsed>): (vs: seq<Parsed>)
    ensures forall k :: 0 <= k < |vs| ==> vs[k].timestamp.Some?
  {
    if ps == [] then [] else (if ps[0].timestamp.Some? then [ps[0]] else []) + Valid(ps[1..])
  }

  /** The valid entries are exactly the parsed entries with a timestamp. */
  lemma {:induction false} ValidEntries(ps: seq<Parsed>)
    ensures forall x :: x in Valid(ps) <==> x in ps && x.timestamp.Some?
  {
    if ps != [] {
      ValidEntries(ps[1..]);
      var head := if ps[0].timestamp.Some? then [ps[0]] else [];
      assert Valid(ps) == head + Valid(ps[1..]);
      assert forall x :: x in ps <==> x == ps[0] || x in ps[1..];
    }
  }

  /** The filter keeps the order of the entries: the valid entries of two
      runs of entries are those of the first run, then those of the second. */
  lemma {:induction false} ValidAppend(a: seq<Parsed>, b: seq<Parsed>)
    ensures Valid(a + b) == Valid(a) + Valid(b)
    decreases |a|
  {
    if a != [] {
      assert (a + b)[0] == a[0] && (a + b)[1..] == a[1..] + b;
      ValidAppend(a[1..], b);
      var head := if a[0].timestamp.Some? then [a[0]] else [];
      assert Valid(a + b) == head + (Valid(a[1..]) + Valid(b));
    } else {
      assert a + b == b;
    }
  }

  /** `[e["error"] for e in parsed_entries if e["error"]]` */
  function Errors(ps: seq<Parsed>): (es: seq<Json>)
    ensures forall k :: 0 <= k < |es| ==> Truthy(es[k])
    ensures forall k :: 0 <= k < |ps| && Truthy(ps[k].error) ==> ps[k].error in es
    ensures |es| <= |ps|
  {
    if ps == [] then [] else (if Truthy(ps[0].error) then [ps[0].error] else []) + Errors(ps[1..])
  }

  /** The errors are reported in the order of their entries. */
  lemma {:induction false} ErrorsAppend(a: seq<Parsed>, b: seq<Parsed>)
    ensures Errors(a + b) == Errors(a) + Errors(b)
    decreases |a|
  {
    if a != [] {
      assert (a + b)[0] == a[0] && (a + b)[1..] == a[1..] + b;
      ErrorsAppend(a[1..], b);
      var head := if Truthy(a[0].error) then [a[0].error] else [];
      assert Errors(a + b) == head + (Errors(a[1..]) + Errors(b));
    } else {
      assert a + b == b;
    }
  }

  predicate RolesAreStrings(vs: seq<Parsed>) {
    forall k :: 0 <= k < |vs| ==> vs[k].agentRole.JStr?
  }

  /** `analyze_log_file(request_id)`. */
  method AnalyzeLogFile(requestId: string, file: LogFile, parseTime: string -> Option<int>) returns (s: Summary)
    ensures s.requestId == requestId && s.logFile == LogPath(requestId)
    ensures s.found <==> !file.Missing?
    ensures file.Missing? ==> s == Initial(requestId).(error := Some("Log file not found."))
    ensures file.Undecodable? ==> s == Initial(requestId).(found := true, error := Some("Failed to decode JSON: " + file.reason))
    ensures file.Decoded? && !file.data.JArr? ==>
      s == Initial(requestId).(found := true, error := Some("Log file does not contain a JSON list."))
    ensures file.Decoded? && file.data.JArr? ==> s.entryCount == |file.data.items|
    ensures file.Decoded? && file.data == JArr([]) ==>
      s == Initial(requestId).(found := true, error := Some("Log file is empty."))
    ensures file.Decoded? && file.data.JArr? && file.data.items != [] ==>
      var items := file.data.items;
      var n := |items|;
      match ParseAll(items, parseTime)
      case FailedAt(e) =>
        s == Initial(requestId).(found := true, entryCount := n, error := Some(Unexpected + NoAttribute(e, "get")))
      case AllParsed(ps) =>
        var vs := Valid(ps);
        var s0 := Initial(requestId).(found := true, entryCount := n);
        (vs == [] ==> s == s0.(error := Some("No log entries with valid timestamps found.")))
        && (vs != [] && !RolesAreStrings(vs) ==> s == s0.(error := Some(Unexpected + "agentRole values cannot be sorted")))
        && (vs != [] && RolesAreStrings(vs) ==> Summarises(s, s0, ps))
  {
    s := Initial(requestId);
    if file.Missing? {
      s := s.(error := Some("Log file not found."));
      return;
    }
    s := s.(found := true);
    if file.Undecodable? {
      s := s.(error := Some("Failed to decode JSON: " + file.reason));
      return;
    }
    if !file.data.JArr? {
      s := s.(error := Some("Log file does not contain a JSON list."));
      return;
    }
    var items := file.data.items;
    s := s.(entryCount := |items|);
    if items == [] {
      s := s.(error := Some("Log file is empty."));
      return;
    }
    var outcome := ParseEntries(items, parseTime);
    if outcome.FailedAt? {
      s := s.(error := Some(Unexpected + NoAttribute(outcome.entry, "get")));
      return;
    }
    s := Summarise(s, outcome.entries);
  }

  /** The list comprehension over the entries, stopping at the exception
      of the first entry that is not a dict. */
  method ParseEntries(items: seq<Json>, parseTime: string -> Option<int>) returns (o: ParseOutcome)
    ensures o == ParseAll(items, parseTime)
  {
    var parsed: seq<Parsed> := [];
    for i := 0 to |items|
      invariant ParseAll(items[..i], parseTime) == AllParsed(parsed)
    {
      assert items[..i + 1][..i] == items[..i];
      var p := ParseLogEntry(items[i], parseTime);
      if p.None? {
        ParseAllFails(items, i + 1, parseTime);
        return FailedAt(items[i]);
      }
      parsed := parsed + [p.value];
    }
    assert items[..|items|] == items;
    return AllParsed(parsed);
  }

  /** What a summary holds when some entries have timestamps and every such
      entry names its agent by a string: the fields of `s0` it was started
      from, the agents in sorted order, the earliest and latest times, the
      final status and next agent of the last entry with the latest time,
      and the errors of all parsed entries. */
  ghost predicate Summarises(s: Summary, s0: Summary, parsed: seq<Parsed>) {
    var vs := Valid(parsed);
    && vs != []
    && s.requestId == s0.requestId && s.logFile == s0.logFile && s.found == s0.found
    && s.entryCount == s0.entryCount && s.error == s0.error
    && StrictlySorted(s.agentsUsed)
    && (forall a :: a in s.agentsUsed <==> exists k :: 0 <= k < |vs| && vs[k].agentRole == JStr(a))
    && s.startTime == Some(EarliestTime(vs))
    && s.endTime == Some(Time(vs[LastLatest(vs)]))
    && s.finalStatus == vs[LastLatest(vs)].status
    && s.finalNextAgent == vs[LastLatest(vs)].nextAgent
    && s.errorsEncountered == Errors(parsed)
  }

  lemma Summarised(s: Summary, s0: Summary, parsed: seq<Parsed>)
    requires Valid(parsed) != []
    requires s.requestId == s0.requestId && s.logFile == s0.logFile && s.found == s0.found
    requires s.entryCount == s0.entryCount && s.error == s0.error
    requires StrictlySorted(s.agentsUsed)
    requires forall a :: a in s.agentsUsed <==> exists k :: 0 <= k < |Valid(parsed)| && Valid(parsed)[k].agentRole == JStr(a)
    requires var valid := SortByTime(Valid(parsed));
      && s.startTime == Some(Time(valid[0])) && s.endTime == Some(Time(valid[|valid| - 1]))
      && s.finalStatus == valid[|valid| - 1].status && s.finalNextAgent == valid[|valid| - 1].nextAgent
    requires s.errorsEncountered == Errors(parsed)
    ensures Summarises(s, s0, parsed)
  {
    SortedEnds(Valid(parsed));
  }

  /** The part of `analyze_log_file` after the entries are parsed: the
      fields filled from the valid entries in time order. */
  method Summarise(s0: Summary, parsed: seq<Parsed>) returns (s: Summary)
    ensures Valid(parsed) == [] ==> s == s0.(error := Some("No log entries with valid timestamps found."))
    ensures Valid(parsed) != [] && !RolesAreStrings(Valid(parsed)) ==>
      s == s0.(error := Some(Unexpected + "agentRole values cannot be sorted"))
    ensures Valid(parsed) != [] && RolesAreStrings(Valid(parsed)) ==> Summarises(s, s0, parsed)
  {
    s := s0;
    var vs := Valid(parsed);
    var valid := SortByTime(vs);
    if valid == [] {
      s := s.(error := Some("No log entries with valid timestamps found."));
      return;
    }
    SameRoles(valid, vs);
    if !RolesAreStrings(valid) {
      s := s.(error := Some(Unexpected + "agentRole values cannot be sorted"));
      return;
    }
    var agents := AgentsUsed(valid, vs);
    var first := valid[0];
    var last := valid[|valid| - 1];
    s := s.(agentsUsed := agents, startTime := Some(Time(first)), endTime := Some(Time(last)),
            finalStatus := last.status, finalNextAgent := last.nextAgent,
            errorsEncountered := Errors(parsed));
    Summarised(s, s0, parsed);
  }

  /** `sorted(list(set(entry["agentRole"] for entry in valid_entries)))` */
  method AgentsUsed(valid: seq<Parsed>, vs: seq<Parsed>) returns (agents: seq<string>)
    requires RolesAreStrings(valid) && multiset(valid) == multiset(vs)
    ensures StrictlySorted(agents)
    ensures forall a :: a in agents <==> exists k :: 0 <= k < |vs| && vs[k].agentRole == JStr(a)
  {
    SameRoles(valid, vs);
    agents := SortSet(RoleNames(valid));
  }

  /** The first and last entries after the sort. */
  lemma SortedEnds(vs: seq<Parsed>)
    requires vs != []
    ensures Time(SortByTime(vs)[0]) == EarliestTime(vs)
    ensures SortByTime(vs)[|vs| - 1] == vs[LastLatest(vs)]
  {
    SortedFirst(vs);
    SortedLast(vs);
  }

  /** `set(entry["agentRole"] for entry in valid_entries)` */
  function RoleNames(vs: seq<Parsed>): set<string>
    requires RolesAreStrings(vs)
  {
    set k | 0 <= k < |vs| :: vs[k].agentRole.s
  }

  /** Two orderings of the same entries name the same agents. */
  lemma SameRoles(a: seq<Parsed>, b: seq<Parsed>)
    requires multiset(a) == multiset(b)
    ensures RolesAreStrings(a) <==> RolesAreStrings(b)
    ensures RolesAreStrings(a) ==> forall r :: r in RoleNames(a) <==> exists k :: 0 <= k < |b| && b[k].agentRole == JStr(r)
  {
    forall k | 0 <= k < |a| ensures exists m :: 0 <= m < |b| && b[m] == a[k] {
      assert a[k] in multiset(b);
    }
    forall k | 0 <= k < |b| ensures exists m :: 0 <= m < |a| && a[m] == b[k] {
      assert b[k] in multiset(a);
    }
  }

  /** The earliest time never follows the latest. */
  lemma StartNotAfterEnd(vs: seq<Parsed>)
    requires vs != []
    ensures EarliestTime(vs) <= Time(vs[LastLatest(vs)])
  {
  }
}
