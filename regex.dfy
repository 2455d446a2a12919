/**
 * Hand-written scanners for the two version regexes the tools use. Both
 * begin with `\d+\.\d+`; `re.search` returns the match that starts
 * leftmost, and since the patterns end in greedy repetitions with nothing
 * after them, the match from a start position is the longest one.
 */
module Regex {

  import opened Wrappers
  import opened Strings

  /** The end of the run of digits that begins at `p`. */
  function DigitRunEnd(s: string, p: nat): (q: nat)
    requires p <= |s|
    ensures p <= q <= |s|
    ensures forall i :: p <= i < q ==> IsDigit(s[i])
    ensures q < |s| ==> !IsDigit(s[q])
    decreases |s| - p
  {
    if p < |s| && IsDigit(s[p]) then DigitRunEnd(s, p + 1) else p
  }

  /** `\d+\.\d+` matches at `p`: `\d+` must take the whole run of digits,
      since a shorter run is followed by a digit rather than '.'. */
  predicate MatchesAt(s: string, p: nat)
    requires p <= |s|
  {
    p < |s| && IsDigit(s[p]) &&
    var q := DigitRunEnd(s, p);
    q + 1 < |s| && s[q] == '.' && IsDigit(s[q + 1])
  }

  /** The leftmost position at or after `p` where `\d+\.\d+` matches. */
  function FirstMatch(s: string, p: nat): (k: Option<nat>)
    requires p <= |s|
    ensures k.Some? ==> p <= k.value < |s| && MatchesAt(s, k.value)
    ensures k.Some? ==> forall i :: p <= i < k.value ==> !MatchesAt(s, i)
    ensures k.None? ==> forall i :: p <= i <= |s| ==> !MatchesAt(s, i)
    decreases |s| - p
  {
    if p == |s| then None
    else if MatchesAt(s, p) then Some(p)
    else FirstMatch(s, p + 1)
  }

  /** The class `[a-zA-Z0-9.-]`. */
  predicate IsVersionChar(c: char) { IsAlnum(c) || c == '.' || c == '-' }

  function VersionRunEnd(s: string, p: nat): (q: nat)
    requires p <= |s|
    ensures p <= q <= |s|
    ensures forall i :: p <= i < q ==> IsVersionChar(s[i])
    ensures q < |s| ==> !IsVersionChar(s[q])
    decreases |s| - p
  {
    if p < |s| && IsVersionChar(s[p]) then VersionRunEnd(s, p + 1) else p
  }

  /** The end of `(\.\d+)*` taken greedily from `e`. */
  function DottedEnd(s: string, e: nat): (q: nat)
    requires e <= |s|
    ensures e <= q <= |s|
    decreases |s| - e
  {
    if e + 1 < |s| && s[e] == '.' && IsDigit(s[e + 1]) then DottedEnd(s, DigitRunEnd(s, e + 1)) else e
  }

  predicate IsDottedChar(c: char) { IsDigit(c) || c == '.' }

  lemma {:induction false} DottedEndShape(s: string, e: nat)
    requires e <= |s|
    ensures forall i :: e <= i < DottedEnd(s, e) ==> IsDottedChar(s[i])
    ensures DottedEnd(s, e) > e ==> IsDigit(s[DottedEnd(s, e) - 1])
    decreases |s| - e
  {
    if e + 1 < |s| && s[e] == '.' && IsDigit(s[e + 1]) {
      DottedEndShape(s, DigitRunEnd(s, e + 1));
    }
  }

  /** `(\d+\.\d+(\.\d+)?(\.\d+)?([a-zA-Z0-9.-]*)?)`, the pattern of
      rules/tools/check_versions.py: after `\d+\.\d+` every further part
      draws from `[a-zA-Z0-9.-]`, so the match runs to the end of that
      class. */
  function SearchToolVersion(s: string): (r: Option<string>)
  {
    match FirstMatch(s, 0)
    case None => None
    case Some(p) => Some(s[p..VersionRunEnd(s, p)])
  }

  /** `(\d+\.\d+(\.\d+)*)`, the pattern of tools/verify_environment.py. */
  function SearchDottedVersion(s: string): (r: Option<string>)
  {
    match FirstMatch(s, 0)
    case None => None
    case Some(p) =>
      var q := DigitRunEnd(s, p);
      Some(s[p..DottedEnd(s, DigitRunEnd(s, q + 1))])
  }

  /** A match of the `check_versions` pattern starts with a digit, holds a
      '.', is made of `[a-zA-Z0-9.-]` only, cannot be extended, and starts
      at the leftmost place `\d+\.\d+` occurs. */
  lemma ToolVersionShape(s: string)
    ensures SearchToolVersion(s).None? <==> forall i :: 0 <= i <= |s| ==> !MatchesAt(s, i)
    ensures SearchToolVersion(s).Some? ==>
      var v := SearchToolVersion(s).value;
      var p := FirstMatch(s, 0).value;
      |v| >= 3 && IsDigit(v[0]) && '.' in v &&
      (forall i :: 0 <= i < |v| ==> IsVersionChar(v[i])) &&
      s[p..p + |v|] == v &&
      (p + |v| < |s| ==> !IsVersionChar(s[p + |v|])) &&
      (forall i :: 0 <= i < p ==> !MatchesAt(s, i))
  {
    var k := FirstMatch(s, 0);
    if k.Some? {
      var p := k.value;
      var q := DigitRunEnd(s, p);
      assert forall i :: p <= i < q + 2 ==> IsVersionChar(s[i]);
      var e := VersionRunEnd(s, p);
      assert e >= q + 2;
      var v := s[p..e];
      assert v[q - p] == '.';
    }
  }

  /** A match of the `verify_environment` pattern is digits and dots, starts
      and ends with a digit, and holds a '.'. */
  lemma DottedVersionShape(s: string)
    ensures SearchDottedVersion(s).None? <==> forall i :: 0 <= i <= |s| ==> !MatchesAt(s, i)
    ensures SearchDottedVersion(s).Some? ==> DottedShape(SearchDottedVersion(s).value)
  {
    var k := FirstMatch(s, 0);
    if k.Some? {
      DottedMatchShape(s, k.value);
    }
  }

  /** Digits and dots, a digit at each end, and a '.' in between. */
  predicate DottedShape(v: string) {
    |v| >= 3 && IsDigit(v[0]) && IsDigit(v[|v| - 1]) && '.' in v &&
    (forall i :: 0 <= i < |v| ==> IsDottedChar(v[i]))
  }

  lemma DottedMatchShape(s: string, p: nat)
    requires p <= |s| && MatchesAt(s, p)
    ensures DottedShape(s[p..DottedEnd(s, DigitRunEnd(s, DigitRunEnd(s, p) + 1))])
  {
    var q := DigitRunEnd(s, p);
    var r := DigitRunEnd(s, q + 1);
    var e := DottedEnd(s, r);
    DottedEndShape(s, r);
    assert IsDigit(s[e - 1]);
    assert forall i :: p <= i < e ==> IsDottedChar(s[i]);
    var v := s[p..e];
    assert v[q - p] == '.';
  }
}
