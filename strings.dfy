/**
 * The Python `str` operations the scripts rely on, restricted to ASCII:
 * `strip()`, `split(sep)`, `split(sep, maxsplit)`, `split()`, `splitlines()`,
 * `lower()`, `in`, `count`, `startswith`, `endswith`, slicing, `int()` and
 * `str()` of an integer.
 */
module Strings {

  import opened Wrappers

  /** `c.isspace()` for an ASCII character: \t \n \v \f \r, the four
      separators 0x1C..0x1F, and the space. */
  predicate IsSpace(c: char) {
    (9 <= c as int <= 13) || (28 <= c as int <= 32)
  }

  predicate IsDigit(c: char) { '0' <= c <= '9' }
  predicate IsUpper(c: char) { 'A' <= c <= 'Z' }
  predicate IsLower(c: char) { 'a' <= c <= 'z' }
  predicate IsAlnum(c: char) { IsDigit(c) || IsUpper(c) || IsLower(c) }

  predicate AllSpace(s: string) { forall i :: 0 <= i < |s| ==> IsSpace(s[i]) }
  predicate NoSpace(s: string) { forall i :: 0 <= i < |s| ==> !IsSpace(s[i]) }

  /** `not s.strip()`: the string is empty or all whitespace. */
  predicate IsBlank(s: string) { AllSpace(s) }

  /** The number of whitespace characters `s` starts with. */
  function LeadingSpaces(s: string): (n: nat)
    ensures n <= |s| && AllSpace(s[..n])
    ensures n < |s| ==> !IsSpace(s[n])
  {
    if s == [] || !IsSpace(s[0]) then 0
    else
      var n := LeadingSpaces(s[1..]);
      n + 1
  }

  /** The length of `s` without the whitespace it ends with. */
  function TrailingEnd(s: string): (n: nat)
    ensures n <= |s| && AllSpace(s[n..])
    ensures n > 0 ==> !IsSpace(s[n - 1])
  {
    if s == [] || !IsSpace(s[|s| - 1]) then |s|
    else
      var n := TrailingEnd(s[..|s| - 1]);
      assert forall k :: 0 <= k < |s| - 1 - n ==> s[n..][k] == s[..|s| - 1][n..][k];
      n
  }

  /** `s.lstrip()` */
  function StripLeft(s: string): (r: string) {
    s[LeadingSpaces(s)..]
  }

  /** `s.rstrip()` */
  function StripRight(s: string): (r: string) {
    s[..TrailingEnd(s)]
  }

  /** `s.strip()`: `s` is the result with whitespace on both sides. */
  function Strip(s: string): (r: string)
    ensures exists i, j :: 0 <= i <= j <= |s| && r == s[i..j] && AllSpace(s[..i]) && AllSpace(s[j..])
    ensures r != [] ==> !IsSpace(r[0]) && !IsSpace(r[|r| - 1])
    ensures r == [] <==> IsBlank(s)
  {
    var l := StripLeft(s);
    var r := StripRight(l);
    StripFacts(s, l, r);
    r
  }

  lemma StripFacts(s: string, l: string, r: string)
    requires l == StripLeft(s) && r == StripRight(l)
    ensures exists i, j :: 0 <= i <= j <= |s| && r == s[i..j] && AllSpace(s[..i]) && AllSpace(s[j..])
    ensures r != [] ==> !IsSpace(r[0]) && !IsSpace(r[|r| - 1])
    ensures r == [] <==> IsBlank(s)
  {
    var i := LeadingSpaces(s);
    var n := TrailingEnd(l);
    var j := i + n;
    assert r == s[i..j];
    assert s[j..] == l[n..];
    if r != [] {
      assert r[0] == s[i];
    }
    assert IsBlank(s) ==> i == |s|;
    if r == [] {
      assert AllSpace(l) by { assert l[n..] == l; }
      assert s[..i] == s;
    }
  }

  /** Python's `s[:n]` for a non-negative `n`. */
  function Take(s: string, n: nat): (r: string)
    ensures |r| == if n <= |s| then n else |s|
    ensures r == s[..|r|]
  {
    if n <= |s| then s[..n] else s
  }

  /** `s.startswith(p)` */
  predicate StartsWith(s: string, p: string) {
    |p| <= |s| && s[..|p|] == p
  }

  /** `s.endswith(p)` */
  predicate EndsWith(s: string, p: string) {
    |p| <= |s| && s[|s| - |p|..] == p
  }

  /** Regrouping a concatenation, stated once for all strings so that no
      proof has to compare literals character by character. */
  lemma Regroup(a: string, b: string, c: string)
    ensures (a + b) + c == a + (b + c)
  {
  }

  lemma PrefixOfConcat(a: string, b: string)
    ensures StartsWith(a + b, a)
  {
    assert (a + b)[..|a|] == a;
  }

  lemma SuffixOfConcat(a: string, b: string, t: string)
    requires EndsWith(b, t)
    ensures EndsWith(a + b, t)
  {
    assert (a + b)[|a + b| - |t|..] == b[|b| - |t|..];
  }

  /** `sub in s` */
  predicate Contains(s: string, sub: string)
    decreases |s|
  {
    StartsWith(s, sub) || (s != [] && Contains(s[1..], sub))
  }

  /** `s.count(sub)` for a non-empty `sub`: non-overlapping occurrences, scanned
      from the left. */
  function Count(s: string, sub: string): (n: nat)
    requires sub != []
    ensures n > 0 ==> Contains(s, sub)
    decreases |s|
  {
    if |s| < |sub| then 0
    else if StartsWith(s, sub) then 1 + Count(s[|sub|..], sub)
    else Count(s[1..], sub)
  }

  /** `s.lower()` on ASCII letters; every other character is kept. */
  function LowerChar(c: char): (d: char) {
    if IsUpper(c) then (c as int + 32) as char else c
  }

  function Lower(s: string): (r: string)
    ensures |r| == |s|
    ensures forall i :: 0 <= i < |s| ==> r[i] == LowerChar(s[i])
  {
    seq(|s|, i requires 0 <= i < |s| => LowerChar(s[i]))
  }

  /** `sep.join(ps)` */
  function Join(ps: seq<string>, sep: char): (r: string)
  {
    if |ps| == 0 then ""
    else if |ps| == 1 then ps[0]
    else ps[0] + [sep] + Join(ps[1..], sep)
  }

  /** `s.split(sep)` with a one-character separator. */
  function Split(s: string, sep: char): (r: seq<string>)
    ensures |r| >= 1
    ensures forall i :: 0 <= i < |r| ==> sep !in r[i]
  {
    if s == [] then [""]
    else if s[0] == sep then [""] + Split(s[1..], sep)
    else
      var t := Split(s[1..], sep);
      [[s[0]] + t[0]] + t[1..]
  }

  /** Splitting and joining again gives back the input. */
  lemma {:induction false} JoinSplit(s: string, sep: char)
    ensures Join(Split(s, sep), sep) == s
  {
    if s == [] {
    } else if s[0] == sep {
      JoinSplit(s[1..], sep);
    } else {
      JoinSplit(s[1..], sep);
      var t := Split(s[1..], sep);
      if |t| > 1 {
        assert ([[s[0]] + t[0]] + t[1..])[1..] == t[1..];
      }
    }
  }

  lemma {:induction false} SplitNonSep(c: char, s: string, sep: char)
    requires c != sep
    ensures Split([c] + s, sep) == [[c] + Split(s, sep)[0]] + Split(s, sep)[1..]
  {
    assert ([c] + s)[1..] == s;
  }

  /** Joining pieces that do not contain the separator and splitting again
      gives back the pieces. */
  lemma {:induction false} SplitJoin(ps: seq<string>, sep: char)
    requires |ps| >= 1
    requires forall i :: 0 <= i < |ps| ==> sep !in ps[i]
    ensures Split(Join(ps, sep), sep) == ps
    decreases |ps|, |ps[0]|
  {
    if |ps| == 1 {
      SplitPiece(ps[0], sep);
    } else if ps[0] == [] {
      SplitJoin(ps[1..], sep);
      assert Join(ps, sep) == [sep] + Join(ps[1..], sep);
      assert ([sep] + Join(ps[1..], sep))[1..] == Join(ps[1..], sep);
    } else {
      var qs := [ps[0][1..]] + ps[1..];
      assert forall i :: 0 <= i < |qs| ==> sep !in qs[i] by {
        forall i | 0 <= i < |qs| ensures sep !in qs[i] {
          if i == 0 { assert forall k :: 0 <= k < |ps[0][1..]| ==> ps[0][1..][k] == ps[0][k + 1]; }
        }
      }
      SplitJoin(qs, sep);
      assert qs[1..] == ps[1..];
      assert Join(ps, sep) == [ps[0][0]] + Join(qs, sep);
      assert ps[0][0] in ps[0];
      SplitNonSep(ps[0][0], Join(qs, sep), sep);
      assert [ps[0][0]] + ps[0][1..] == ps[0];
    }
  }

  lemma {:induction false} SplitPiece(p: string, sep: char)
    requires sep !in p
    ensures Split(p, sep) == [p]
  {
    if p != [] {
      assert sep !in p[1..] by { assert forall k :: 0 <= k < |p[1..]| ==> p[1..][k] == p[k + 1]; }
      SplitPiece(p[1..], sep);
      assert [p[0]] + p[1..] == p;
    }
  }

  /** Index of the first `c` in `s`. */
  function IndexOf(s: string, c: char): (r: int)
    ensures -1 <= r < |s|
    ensures r == -1 <==> c !in s
    ensures r >= 0 ==> s[r] == c && c !in s[..r]
  {
    if s == [] then -1
    else if s[0] == c then 0
    else
      var k := IndexOf(s[1..], c);
      assert s[1..] == s[1..];
      if k == -1 then (assert forall j :: 1 <= j < |s| ==> s[j] == s[1..][j - 1]; -1)
      else (assert s[..k + 1] == [s[0]] + s[1..][..k]; k + 1)
  }

  /** `s.split(sep, maxsplit=n)` with a one-character separator: at most
      `n` cuts, at the first separators. */
  function SplitMax(s: string, sep: char, n: nat): (r: seq<string>)
    ensures 1 <= |r| <= n + 1
    decreases |s|
  {
    if s == [] then [""]
    else if n > 0 && s[0] == sep then [""] + SplitMax(s[1..], sep, n - 1)
    else
      var t := SplitMax(s[1..], sep, n);
      [[s[0]] + t[0]] + t[1..]
  }

  /** Joining the pieces of `s.split(sep, n)` with `sep` gives back `s`. */
  lemma {:induction false} SplitMaxJoined(s: string, sep: char, n: nat)
    ensures Join(SplitMax(s, sep, n), sep) == s
    decreases |s|
  {
    if s == [] {
    } else if n > 0 && s[0] == sep {
      var rest := SplitMax(s[1..], sep, n - 1);
      SplitMaxJoined(s[1..], sep, n - 1);
      JoinCons("", rest, sep);
      assert [s[0]] + s[1..] == s;
    } else {
      var t := SplitMax(s[1..], sep, n);
      SplitMaxJoined(s[1..], sep, n);
      if |t| == 1 {
        assert [s[0]] + s[1..] == s;
      } else {
        JoinCons([s[0]] + t[0], t[1..], sep);
        JoinCons(t[0], t[1..], sep);
        assert [t[0]] + t[1..] == t;
        assert [s[0]] + s[1..] == s;
      }
    }
  }

  /** With no cut allowed, the split is the whole string. */
  lemma {:induction false} SplitMaxNone(s: string, sep: char)
    ensures SplitMax(s, sep, 0) == [s]
    decreases |s|
  {
    if s != [] {
      SplitMaxNone(s[1..], sep);
      assert [s[0]] + s[1..] == s;
    }
  }

  lemma JoinCons(a: string, rest: seq<string>, sep: char)
    requires |rest| >= 1
    ensures Join([a] + rest, sep) == a + [sep] + Join(rest, sep)
  {
    assert ([a] + rest)[1..] == rest;
  }

  /** The pieces of a split with at most `n` cuts: none but the last holds
      the separator, and the last neither unless all `n` cuts were made. */
  predicate PiecesFree(r: seq<string>, sep: char, n: nat) {
    && (forall i :: 0 <= i < |r| - 1 ==> sep !in r[i])
    && (|r| >= 1 && |r| <= n ==> sep !in r[|r| - 1])
  }

  /** The pieces `SplitMax` cuts hold no separator, except the last when
      the split stopped at `n` cuts. */
  lemma {:induction false} SplitMaxPieces(s: string, sep: char, n: nat)
    ensures PiecesFree(SplitMax(s, sep, n), sep, n)
    decreases |s|
  {
    if s == [] {
    } else if n > 0 && s[0] == sep {
      var rest := SplitMax(s[1..], sep, n - 1);
      var r := [""] + rest;
      SplitMaxPieces(s[1..], sep, n - 1);
      assert forall i :: 1 <= i < |r| ==> r[i] == rest[i - 1];
    } else {
      var t := SplitMax(s[1..], sep, n);
      var r := [[s[0]] + t[0]] + t[1..];
      SplitMaxPieces(s[1..], sep, n);
      assert forall i :: 1 <= i < |r| ==> r[i] == t[i];
      assert sep !in [s[0]] + t[0] <== |t| > 1 || n > 0;
    }
  }

  /** `s.split()` with no argument: the maximal runs of non-whitespace. */
  function Words(s: string): (r: seq<string>)
    ensures forall i :: 0 <= i < |r| ==> r[i] != [] && NoSpace(r[i])
    decreases |s|
  {
    var t := StripLeft(s);
    if t == [] then []
    else
      var k := FirstSpace(t);
      [t[..k]] + Words(t[k..])
  }

  /** Index of the first whitespace character, or the length. */
  function FirstSpace(s: string): (k: nat)
    ensures k <= |s|
    ensures NoSpace(s[..k])
    ensures k < |s| ==> IsSpace(s[k])
  {
    if s == [] || IsSpace(s[0]) then 0
    else
      var k := FirstSpace(s[1..]);
      assert s[..k + 1] == [s[0]] + s[1..][..k];
      k + 1
  }

  function Concat(ws: seq<string>): string {
    if ws == [] then "" else ws[0] + Concat(ws[1..])
  }

  function FilterNonSpace(s: string): (r: string) {
    if s == [] then ""
    else if IsSpace(s[0]) then FilterNonSpace(s[1..])
    else [s[0]] + FilterNonSpace(s[1..])
  }

  lemma {:induction false} FilterNonSpaceAppend(a: string, b: string)
    ensures FilterNonSpace(a + b) == FilterNonSpace(a) + FilterNonSpace(b)
  {
    if a == [] {
      assert a + b == b;
    } else {
      assert (a + b)[0] == a[0];
      assert (a + b)[1..] == a[1..] + b;
      FilterNonSpaceAppend(a[1..], b);
      if IsSpace(a[0]) {
        assert FilterNonSpace(a + b) == FilterNonSpace(a[1..] + b);
      } else {
        assert FilterNonSpace(a + b) == [a[0]] + FilterNonSpace(a[1..] + b);
      }
    }
  }

  lemma {:induction false} FilterAllSpace(a: string)
    requires AllSpace(a)
    ensures FilterNonSpace(a) == ""
  {
    if a != [] { FilterAllSpace(a[1..]); }
  }

  lemma {:induction false} FilterNoSpace(a: string)
    requires NoSpace(a)
    ensures FilterNonSpace(a) == a
  {
    if a != [] { FilterNoSpace(a[1..]); }
  }

  /** The words of `s`, put together, are exactly the non-whitespace characters
      of `s`, in order: `split()` only drops whitespace. */
  lemma {:induction false} WordsKeepText(s: string)
    ensures Concat(Words(s)) == FilterNonSpace(s)
    decreases |s|
  {
    var t := StripLeft(s);
    LeadingSpaceFiltered(s, t);
    if t != [] {
      var k := FirstSpace(t);
      WordsKeepText(t[k..]);
      WordsUnfold(s, t, k);
      FirstWordFiltered(t, k);
    } else {
      assert Words(s) == [];
    }
  }

  lemma LeadingSpaceFiltered(s: string, t: string)
    requires t == StripLeft(s)
    ensures FilterNonSpace(s) == FilterNonSpace(t)
  {
    assert s == s[..|s| - |t|] + t;
    FilterNonSpaceAppend(s[..|s| - |t|], t);
    FilterAllSpace(s[..|s| - |t|]);
  }

  lemma WordsUnfold(s: string, t: string, k: nat)
    requires t == StripLeft(s) && t != [] && k == FirstSpace(t)
    ensures Concat(Words(s)) == t[..k] + Concat(Words(t[k..]))
  {
    var rest := Words(t[k..]);
    assert Words(s) == [t[..k]] + rest;
    assert ([t[..k]] + rest)[1..] == rest;
  }

  lemma FirstWordFiltered(t: string, k: nat)
    requires k == FirstSpace(t)
    ensures FilterNonSpace(t) == t[..k] + FilterNonSpace(t[k..])
  {
    assert t == t[..k] + t[k..];
    FilterNonSpaceAppend(t[..k], t[k..]);
    FilterNoSpace(t[..k]);
  }

  /** A line boundary of `str.splitlines()` (ASCII part): \n \r \v \f and
      0x1C..0x1E. */
  predicate IsLineBreak(c: char) {
    (10 <= c as int <= 13) || (28 <= c as int <= 30)
  }

  function FirstLineBreak(s: string): (k: nat)
    ensures k <= |s|
    ensures forall i :: 0 <= i < k ==> !IsLineBreak(s[i])
    ensures k < |s| ==> IsLineBreak(s[k])
  {
    if s == [] || IsLineBreak(s[0]) then 0 else 1 + FirstLineBreak(s[1..])
  }

  /** `s.splitlines()`: "\r\n" is one boundary, and a final boundary does not
      start an empty last line. */
  function SplitLines(s: string): (r: seq<string>)
    ensures s == [] <==> r == []
    ensures forall i :: 0 <= i < |r| ==> forall j :: 0 <= j < |r[i]| ==> !IsLineBreak(r[i][j])
    decreases |s|
  {
    if s == [] then []
    else
      var k := FirstLineBreak(s);
      if k == |s| then [s]
      else
        var w := if s[k] == '\r' && k + 1 < |s| && s[k + 1] == '\n' then 2 else 1;
        [s[..k]] + SplitLines(s[k + w..])
  }

  function DigitChar(d: nat): char
    requires d < 10
  {
    ('0' as int + d) as char
  }

  function NatToString(n: nat): (r: string)
    ensures r != [] && forall i :: 0 <= i < |r| ==> IsDigit(r[i])
  {
    if n < 10 then [DigitChar(n)] else NatToString(n / 10) + [DigitChar(n % 10)]
  }

  /** `str(n)` for an integer. */
  function IntToString(n: int): (r: string)
    ensures r != []
  {
    if n < 0 then "-" + NatToString(-n) else NatToString(n)
  }

  function DigitsValue(s: string): nat
    requires forall i :: 0 <= i < |s| ==> IsDigit(s[i])
  {
    if s == [] then 0
    else
      assert IsDigit(s[|s| - 1]);
      10 * DigitsValue(s[..|s| - 1]) + (s[|s| - 1] as int - '0' as int)
  }

  function OnlyDigits(s: string): (r: string)
    ensures forall i :: 0 <= i < |r| ==> IsDigit(r[i])
  {
    if s == [] then "" else (if IsDigit(s[0]) then [s[0]] else "") + OnlyDigits(s[1..])
  }

  /** The digit part accepted by Python's `int()`: digits, with single
      underscores allowed between two digits. */
  predicate IntBody(s: string) {
    && s != [] && IsDigit(s[0]) && IsDigit(s[|s| - 1])
    && (forall i :: 0 <= i < |s| ==> IsDigit(s[i]) || s[i] == '_')
    && (forall i :: 0 <= i < |s| - 1 ==> !(s[i] == '_' && s[i + 1] == '_'))
  }

  /** Python's `int(s)` on a string: surrounding whitespace, an optional sign
      and an `IntBody`; `None` stands for the `ValueError`. */
  function ParseInt(s: string): (r: Option<int>)
  {
    ParseSigned(Strip(s))
  }

  /** `int()` of a string without surrounding whitespace. */
  function ParseSigned(t: string): (r: Option<int>)
  {
    if t != [] && (t[0] == '-' || t[0] == '+') then
      (if IntBody(t[1..]) then
         var v: int := DigitsValue(OnlyDigits(t[1..]));
         Some(if t[0] == '-' then -v else v)
       else None)
    else if IntBody(t) then Some(DigitsValue(OnlyDigits(t)))
    else None
  }

  lemma {:induction false} OnlyDigitsOfDigits(s: string)
    requires forall i :: 0 <= i < |s| ==> IsDigit(s[i])
    ensures OnlyDigits(s) == s
  {
    if s != [] { OnlyDigitsOfDigits(s[1..]); }
  }

  lemma {:induction false} NatToStringValue(n: nat)
    ensures DigitsValue(NatToString(n)) == n
  {
    if n >= 10 {
      NatToStringValue(n / 10);
      var r := NatToString(n / 10) + [DigitChar(n % 10)];
      assert r[..|r| - 1] == NatToString(n / 10);
    }
  }

  /** `int(str(n)) == n`: the decimal rendering of an integer reads back as
      that integer. */
  lemma {:induction false} IntToStringRoundTrip(n: int)
    ensures ParseInt(IntToString(n)) == Some(n)
  {
    var r := IntToString(n);
    RenderingIsStripped(n);
    assert ParseInt(r) == ParseSigned(r);
    if n < 0 {
      var m: nat := -n;
      NegativeRoundTrip(m);
      assert r == "-" + NatToString(m);
    } else {
      PositiveRoundTrip(n);
      assert r == NatToString(n);
    }
  }

  lemma {:induction false} RenderingIsStripped(n: int)
    ensures Strip(IntToString(n)) == IntToString(n)
  {
    var r := IntToString(n);
    assert !IsSpace(r[0]) && !IsSpace(r[|r| - 1]);
    StripIdentity(r);
  }

  lemma {:induction false} DigitsBody(m: nat)
    ensures IntBody(NatToString(m))
    ensures OnlyDigits(NatToString(m)) == NatToString(m)
    ensures DigitsValue(NatToString(m)) == m
  {
    NatToStringValue(m);
    OnlyDigitsOfDigits(NatToString(m));
  }

  lemma {:induction false} PositiveRoundTrip(m: nat)
    ensures ParseSigned(NatToString(m)) == Some(m)
  {
    var d := NatToString(m);
    DigitsBody(m);
    assert IsDigit(d[0]);
  }

  lemma {:induction false} NegativeRoundTrip(m: nat)
    ensures ParseSigned("-" + NatToString(m)) == Some(-(m as int))
  {
    var d := NatToString(m);
    DigitsBody(m);
    assert ("-" + d)[1..] == d;
  }

  lemma StripIdentity(s: string)
    requires s == [] || (!IsSpace(s[0]) && !IsSpace(s[|s| - 1]))
    ensures Strip(s) == s
  {
  }
}
