/**
 * rules/tools/run_linter.py: running flake8 or black on a target, reading
 * flake8's colon-separated report into issue records, and the exit status
 * of the script.
 */
module Linter {

  import opened Wrappers
  import opened Strings
  import opened Subprocess

  /** The `--format` flake8 is called with: path, row, column, code, text. */
  const Flake8Format := "--format=%(path)s:%(row)d:%(col)d:%(code)s:%(text)s"

  /** `LINTER_COMMANDS[language][action]`: only Python is configured. */
  function BaseCommand(language: string, action: string): (r: Option<seq<string>>)
    ensures r.Some? <==> language == "python" && (action == "lint" || action == "format")
    ensures r.Some? ==> |r.value| >= 1
  {
    if language != "python" then None
    else if action == "lint" then Some(["flake8", Flake8Format])
    else if action == "format" then Some(["black"])
    else None
  }

  /** One entry of the `issues` list. */
  datatype Issue =
    | Flake8Issue(file: string, line: int, column: int, code: string, message: string)
    | ParsingError(text: string)   // `{"file": "parsing_error", "message": line}`
    | FormatError(text: string)    // `{"file": "format_error", "message": line}`

  /** What one non-blank line of the report becomes. */
  function ParseLine(line: string): Issue {
    var parts := SplitMax(line, ':', 4);
    if |parts| == 5 then
      var row, col := ParseInt(parts[1]), ParseInt(parts[2]);
      if row.Some? && col.Some? then Flake8Issue(parts[0], row.value, col.value, parts[3], Strip(parts[4]))
      else ParsingError(line)
    else FormatError(line)
  }

  /** The lines that are not skipped. */
  function NonBlank(lines: seq<string>): (r: seq<string>)
    ensures |r| <= |lines|
    ensures forall k :: 0 <= k < |r| ==> !IsBlank(r[k])
  {
    if lines == [] then []
    else
      var init := NonBlank(lines[..|lines| - 1]);
      if IsBlank(lines[|lines| - 1]) then init else init + [lines[|lines| - 1]]
  }

  /** The specification of `parse_flake8_output`: one issue per non-blank
      line, in order. */
  function Issues(lines: seq<string>): (r: seq<Issue>)
    ensures |r| == |NonBlank(lines)|
  {
    var nb := NonBlank(lines);
    seq(|nb|, k requires 0 <= k < |nb| => ParseLine(nb[k]))
  }

  lemma IssuesStep(lines: seq<string>, i: nat)
    requires i < |lines|
    ensures Issues(lines[..i + 1]) ==
      Issues(lines[..i]) + (if IsBlank(lines[i]) then [] else [ParseLine(lines[i])])
  {
    assert lines[..i + 1][..i] == lines[..i];
  }

  /** `parse_flake8_output` */
  method ParseFlake8Output(lines: seq<string>) returns (issues: seq<Issue>)
    ensures issues == Issues(lines)
  {
    issues := [];
    for i := 0 to |lines|
      invariant issues == Issues(lines[..i])
    {
      IssuesStep(lines, i);
      var line := lines[i];
      if Strip(line) == [] {
        continue;
      }
      var parts := SplitMax(line, ':', 4);
      if |parts| == 5 {
        var row := ParseInt(parts[1]);
        var col := ParseInt(parts[2]);
        if row.Some? && col.Some? {
          issues := issues + [Flake8Issue(parts[0], row.value, col.value, parts[3], Strip(parts[4]))];
        } else {
          issues := issues + [ParsingError(line)];
        }
      } else {
        issues := issues + [FormatError(line)];
      }
    }
    assert lines[..|lines|] == lines;
  }

  // ---------------------------------------------------------------------
  // Reading back what flake8 writes.

  /** The line flake8 writes for an issue under `Flake8Format`: the five
      fields joined by colons. */
  function Render(file: string, row: int, col: int, code: string, text: string): string {
    Join([file, IntToString(row), IntToString(col), code, text], ':')
  }

  predicate NoLineBreak(s: string) {
    forall i :: 0 <= i < |s| ==> !IsLineBreak(s[i])
  }

  /** An issue flake8 can report unambiguously: no colon in the path or the
      code, a message without surrounding whitespace, all on one line. */
  predicate Reportable(i: Issue)
    requires i.Flake8Issue?
  {
    && ':' !in i.file && ':' !in i.code
    && NoLineBreak(i.file) && NoLineBreak(i.code) && NoLineBreak(i.message)
    && Trimmed(i.message)
  }

  /** No whitespace at either end: what `strip()` leaves. */
  predicate Trimmed(m: string) {
    m == [] || (!IsSpace(m[0]) && !IsSpace(m[|m| - 1]))
  }

  function RenderIssue(i: Issue): string
    requires i.Flake8Issue?
  {
    Render(i.file, i.line, i.column, i.code, i.message)
  }

  lemma {:induction false} SplitMaxStep(a: string, sep: char, b: string, n: nat)
    requires sep !in a && n > 0
    ensures SplitMax(a + [sep] + b, sep, n) == [a] + SplitMax(b, sep, n - 1)
    decreases |a|
  {
    var s := a + [sep] + b;
    if a == [] {
      assert s[1..] == b;
    } else {
      assert s[1..] == a[1..] + [sep] + b;
      assert sep !in a[1..] by { assert forall k :: 0 <= k < |a[1..]| ==> a[1..][k] == a[k + 1]; }
      SplitMaxStep(a[1..], sep, b, n);
      assert [a[0]] + a[1..] == a;
    }
  }

  /** `s.split(sep, n)` undoes joining `n + 1` pieces whose first `n` do not
      contain the separator. */
  lemma {:induction false} SplitMaxJoin(ps: seq<string>, sep: char, n: nat)
    requires |ps| == n + 1
    requires forall i :: 0 <= i < n ==> sep !in ps[i]
    ensures SplitMax(Join(ps, sep), sep, n) == ps
    decreases n
  {
    if n == 0 {
      SplitMaxNone(ps[0], sep);
    } else {
      assert Join(ps, sep) == ps[0] + [sep] + Join(ps[1..], sep);
      SplitMaxStep(ps[0], sep, Join(ps[1..], sep), n);
      SplitMaxJoin(ps[1..], sep, n - 1);
      assert ps == [ps[0]] + ps[1..];
    }
  }

  lemma NumberHasNoColon(n: int)
    ensures ':' !in IntToString(n)
  {
    var d := NatToString(if n < 0 then -n else n);
    if n < 0 { assert IntToString(n) == "-" + d; }
    assert forall k :: 0 <= k < |d| ==> d[k] != ':';
  }

  /** Every line flake8 writes for a reportable issue is read back as that
      issue. */
  lemma ParseRendered(i: Issue)
    requires i.Flake8Issue? && Reportable(i)
    ensures ParseLine(RenderIssue(i)) == i
  {
    ParseFields(i.file, i.line, i.column, i.code, i.message);
  }

  lemma ParseFields(file: string, row: int, col: int, code: string, text: string)
    requires ':' !in file && ':' !in code && Trimmed(text)
    ensures ParseLine(Render(file, row, col, code, text)) == Flake8Issue(file, row, col, code, text)
  {
    var r, c := IntToString(row), IntToString(col);
    NumberHasNoColon(row);
    NumberHasNoColon(col);
    SplitFields(file, r, c, code, text);
    IntToStringRoundTrip(row);
    IntToStringRoundTrip(col);
    StripIdentity(text);
    ParseFromParts(Render(file, row, col, code, text), file, r, c, code, text, row, col);
  }

  lemma ParseFromParts(line: string, a: string, b: string, c: string, d: string, e: string, row: int, col: int)
    requires SplitMax(line, ':', 4) == [a, b, c, d, e]
    requires ParseInt(b) == Some(row) && ParseInt(c) == Some(col) && Strip(e) == e
    ensures ParseLine(line) == Flake8Issue(a, row, col, d, e)
  {
  }

  lemma SplitFields(a: string, b: string, c: string, d: string, e: string)
    requires ':' !in a && ':' !in b && ':' !in c && ':' !in d
    ensures SplitMax(Join([a, b, c, d, e], ':'), ':', 4) == [a, b, c, d, e]
  {
    var ps := [a, b, c, d, e];
    assert forall k :: 0 <= k < 4 ==> ':' !in ps[k] by {
      forall k | 0 <= k < 4 ensures ':' !in ps[k] {
        if k == 0 { assert ps[k] == a; } else if k == 1 { assert ps[k] == b; }
        else if k == 2 { assert ps[k] == c; } else { assert ps[k] == d; }
      }
    }
    SplitMaxJoin(ps, ':', 4);
  }

  // Counting the colons the report line contains.

  lemma {:induction false} CountCharConcat(a: string, b: string, c: char)
    ensures Count(a + b, [c]) == Count(a, [c]) + Count(b, [c])
  {
    if a == [] {
      assert a + b == b;
    } else {
      assert (a + b)[1..] == a[1..] + b;
      assert (a + b)[..1] == [a[0]] && a[..1] == [a[0]];
      CountCharConcat(a[1..], b, c);
    }
  }

  lemma {:induction false} CountCharAbsent(a: string, c: char)
    requires c !in a
    ensures Count(a, [c]) == 0
  {
    if a != [] {
      assert a[..1] == [a[0]];
      assert c !in a[1..] by { assert forall k :: 0 <= k < |a[1..]| ==> a[1..][k] == a[k + 1]; }
      CountCharAbsent(a[1..], c);
    }
  }

  /** Joining pieces adds one separator between each two. */
  lemma {:induction false} CountJoin(ps: seq<string>, sep: char)
    requires |ps| >= 1
    requires forall i :: 0 <= i < |ps| - 1 ==> sep !in ps[i]
    ensures Count(Join(ps, sep), [sep]) == |ps| - 1 + Count(ps[|ps| - 1], [sep])
  {
    if |ps| > 1 {
      CountJoin(ps[1..], sep);
      CountCharAbsent(ps[0], sep);
      CountCharConcat(ps[0], [sep], sep);
      CountCharConcat(ps[0] + [sep], Join(ps[1..], sep), sep);
      assert Count([sep], [sep]) == 1 by { assert StartsWith([sep], [sep]); assert [sep][1..] == []; }
      assert ps[1..][|ps[1..]| - 1] == ps[|ps| - 1];
    }
  }

  /** A line is a `format_error` exactly when it has fewer than four colons. */
  lemma FormatErrorIff(line: string)
    ensures ParseLine(line).FormatError? <==> Count(line, ":") < 4
  {
    var parts := SplitMax(line, ':', 4);
    SplitMaxPieces(line, ':', 4);
    SplitMaxJoined(line, ':', 4);
    CountJoin(parts, ':');
    if |parts| <= 4 {
      CountCharAbsent(parts[|parts| - 1], ':');
    }
    assert [':'] == ":";
  }

  // Reading a whole report.

  lemma {:induction false} SplitLinesJoin(ps: seq<string>)
    requires |ps| >= 1
    requires forall i :: 0 <= i < |ps| ==> ps[i] != [] && NoLineBreak(ps[i])
    ensures SplitLines(Join(ps, '\n')) == ps
  {
    var s := Join(ps, '\n');
    var p := ps[0];
    if |ps| == 1 {
      FirstBreakAt(p, []);
      assert p + [] == s;
    } else {
      var rest := Join(ps[1..], '\n');
      assert s == p + (['\n'] + rest);
      FirstBreakAt(p, ['\n'] + rest);
      JoinFirst(ps[1..], '\n');
      assert s[|p|] == '\n';
      assert s[..|p|] == p;
      assert s[|p| + 1..] == rest;
      SplitLinesJoin(ps[1..]);
      assert ps == [p] + ps[1..];
    }
  }

  lemma {:induction false} FirstBreakAt(p: string, rest: string)
    requires NoLineBreak(p)
    requires rest == [] || IsLineBreak(rest[0])
    ensures FirstLineBreak(p + rest) == |p|
  {
    if p != [] {
      assert (p + rest)[1..] == p[1..] + rest;
      FirstBreakAt(p[1..], rest);
    }
  }

  lemma JoinFirst(ps: seq<string>, sep: char)
    requires |ps| >= 1 && ps[0] != []
    ensures Join(ps, sep) != [] && Join(ps, sep)[0] == ps[0][0]
  {
  }

  lemma {:induction false} JoinLast(ps: seq<string>, sep: char)
    requires |ps| >= 1 && ps[|ps| - 1] != []
    ensures |Join(ps, sep)| >= 1
    ensures Join(ps, sep)[|Join(ps, sep)| - 1] == ps[|ps| - 1][|ps[|ps| - 1]| - 1]
  {
    if |ps| > 1 {
      JoinLast(ps[1..], sep);
      assert ps[1..][|ps[1..]| - 1] == ps[|ps| - 1];
    }
  }

  lemma {:induction false} JoinNoBreak(ps: seq<string>, sep: char)
    requires !IsLineBreak(sep)
    requires forall i :: 0 <= i < |ps| ==> NoLineBreak(ps[i])
    ensures NoLineBreak(Join(ps, sep))
  {
    if |ps| > 1 {
      JoinNoBreak(ps[1..], sep);
      var a, b := ps[0] + [sep], Join(ps[1..], sep);
      assert Join(ps, sep) == a + b;
      forall k | 0 <= k < |a + b| ensures !IsLineBreak((a + b)[k]) {
        if k >= |a| { assert (a + b)[k] == b[k - |a|]; }
        else if k < |ps[0]| { assert (a + b)[k] == ps[0][k]; }
      }
    }
  }

  function RenderAll(issues: seq<Issue>): (r: seq<string>)
    requires forall k :: 0 <= k < |issues| ==> issues[k].Flake8Issue? && Reportable(issues[k])
    ensures |r| == |issues|
  {
    seq(|issues|, k requires 0 <= k < |issues| => RenderIssue(issues[k]))
  }

  /** A whole report as flake8 writes it (one line per issue, each ending in
      a newline), once stripped and split into lines as `run_tool` does, is
      read back as exactly the issues reported. */
  lemma ReadReport(issues: seq<Issue>)
    requires |issues| >= 1
    requires forall k :: 0 <= k < |issues| ==> issues[k].Flake8Issue? && Reportable(issues[k])
    requires issues[0].Flake8Issue? && issues[0].file != [] && !IsSpace(issues[0].file[0])
    requires issues[|issues| - 1].Flake8Issue? && issues[|issues| - 1].message != []
    ensures Issues(SplitLines(Strip(Join(RenderAll(issues), '\n') + "\n"))) == issues
  {
    var ls := RenderAll(issues);
    ReportLines(issues, ls);
    NonBlankAll(ls);
    forall k | 0 <= k < |issues| ensures Issues(ls)[k] == issues[k] {
      ParseRendered(issues[k]);
    }
  }

  /** The report, stripped and split, gives back the rendered lines, none
      of them blank. */
  lemma ReportLines(issues: seq<Issue>, ls: seq<string>)
    requires |issues| >= 1
    requires forall k :: 0 <= k < |issues| ==> issues[k].Flake8Issue? && Reportable(issues[k])
    requires issues[0].Flake8Issue? && issues[0].file != [] && !IsSpace(issues[0].file[0])
    requires issues[|issues| - 1].Flake8Issue? && issues[|issues| - 1].message != []
    requires ls == RenderAll(issues)
    ensures SplitLines(Strip(Join(ls, '\n') + "\n")) == ls
    ensures forall k :: 0 <= k < |ls| ==> ls[k] != [] && NoLineBreak(ls[k]) && !IsBlank(ls[k])
  {
    forall k | 0 <= k < |ls| ensures ls[k] != [] && NoLineBreak(ls[k]) && !IsBlank(ls[k]) {
      RenderedLine(issues[k]);
    }
    ReportEnds(issues, ls);
    StripReport(Join(ls, '\n'));
    SplitLinesJoin(ls);
  }

  lemma ReportEnds(issues: seq<Issue>, ls: seq<string>)
    requires |issues| >= 1
    requires forall k :: 0 <= k < |issues| ==> issues[k].Flake8Issue? && Reportable(issues[k])
    requires issues[0].Flake8Issue? && issues[0].file != [] && !IsSpace(issues[0].file[0])
    requires issues[|issues| - 1].Flake8Issue? && issues[|issues| - 1].message != []
    requires ls == RenderAll(issues)
    ensures Join(ls, '\n') != [] && !IsSpace(Join(ls, '\n')[0]) && !IsSpace(Join(ls, '\n')[|Join(ls, '\n')| - 1])
  {
    RenderedEnds(issues[0]);
    RenderedEnds(issues[|issues| - 1]);
    assert ls[0] == RenderIssue(issues[0]);
    assert ls[|ls| - 1] == RenderIssue(issues[|issues| - 1]);
    JoinFirst(ls, '\n');
    JoinLast(ls, '\n');
  }

  lemma RenderedLine(i: Issue)
    requires i.Flake8Issue? && Reportable(i)
    ensures RenderIssue(i) != [] && NoLineBreak(RenderIssue(i)) && !IsBlank(RenderIssue(i))
  {
    NumberNoBreak(i.line);
    NumberNoBreak(i.column);
    FieldsLine(i.file, IntToString(i.line), IntToString(i.column), i.code, i.message);
  }

  lemma FieldsLine(a: string, b: string, c: string, d: string, e: string)
    requires NoLineBreak(a) && NoLineBreak(b) && NoLineBreak(c) && NoLineBreak(d) && NoLineBreak(e)
    ensures var l := Join([a, b, c, d, e], ':'); |l| > |a| && l[|a|] == ':' && NoLineBreak(l)
  {
    var ps := [a, b, c, d, e];
    assert forall k :: 0 <= k < |ps| ==> NoLineBreak(ps[k]) by {
      forall k | 0 <= k < |ps| ensures NoLineBreak(ps[k]) {
        if k == 0 { assert ps[k] == a; } else if k == 1 { assert ps[k] == b; }
        else if k == 2 { assert ps[k] == c; } else if k == 3 { assert ps[k] == d; }
        else { assert ps[k] == e; }
      }
    }
    JoinNoBreak(ps, ':');
    assert Join(ps, ':') == a + [':'] + Join(ps[1..], ':');
  }

  /** The first and the last character flake8 writes for an issue. */
  lemma RenderedEnds(i: Issue)
    requires i.Flake8Issue? && Reportable(i)
    ensures i.file != [] ==> RenderIssue(i) != [] && RenderIssue(i)[0] == i.file[0]
    ensures i.message != [] ==> RenderIssue(i) != [] && RenderIssue(i)[|RenderIssue(i)| - 1] == i.message[|i.message| - 1]
    ensures i.message != [] ==> !IsSpace(i.message[|i.message| - 1])
  {
    var ps := [i.file, IntToString(i.line), IntToString(i.column), i.code, i.message];
    if i.file != [] { JoinFirst(ps, ':'); }
    if i.message != [] {
      JoinLast(ps, ':');
    }
  }

  lemma NumberNoBreak(n: int)
    ensures NoLineBreak(IntToString(n))
  {
    var d := NatToString(if n < 0 then -n else n);
    if n < 0 { assert IntToString(n) == "-" + d; }
  }

  lemma StripReport(body: string)
    requires body != [] && !IsSpace(body[0]) && !IsSpace(body[|body| - 1])
    ensures Strip(body + "\n") == body
  {
    var s := body + "\n";
    assert StripLeft(s) == s;
    assert s[..|s| - 1] == body;
    assert StripRight(s) == StripRight(body);
  }

  lemma {:induction false} NonBlankAll(ls: seq<string>)
    requires forall k :: 0 <= k < |ls| ==> !IsBlank(ls[k])
    ensures NonBlank(ls) == ls
  {
    if ls != [] {
      NonBlankAll(ls[..|ls| - 1]);
      assert ls[..|ls| - 1] + [ls[|ls| - 1]] == ls;
    }
  }

  // ---------------------------------------------------------------------
  // run_tool

  /** The summary dict `run_tool` returns, or the short dict of an
      unsupported request or a missing target. */
  datatype Outcome =
    | Summary(language: string, action: string, target: string, success: bool, error: Option<string>,
              issues: seq<Issue>, issueCount: nat, filesFormatted: nat, message: Option<string>)
    | Refused(language: string, action: string, target: string, reason: string)

  predicate Succeeded(r: Outcome) { r.Summary? && r.success }

  function NotFoundMessage(tool: string): string {
    "Command '" + tool + "' not found. Is it installed and in PATH?"
  }

  /** The check of lines 118-120: exit status 127, or a shell's complaint in
      the error output. */
  predicate LooksNotFound(tool: string, code: int, err: string) {
    code == 127 || Contains(err, "command not found") || Contains(err, "'" + tool + "' is not recognized")
  }

  function Flake8Error(code: int, err: string): string {
    if err != [] then "Flake8 execution error (Exit Code: " + IntToString(code) + "). Stderr: " + err
    else "Flake8 execution error (Exit Code: " + IntToString(code) + "). Check configuration or paths."
  }

  /** `run_tool(language, action, target)`, with `proc` the outcome of running
      the configured command on the target. */
  method RunTool(language: string, action: string, target: string, proc: Proc) returns (r: Outcome)
    ensures BaseCommand(language, action).None? <==> r.Refused?
    ensures r.Refused? ==> r == Refused(language, action, target, "Unsupported language or action.")
    ensures r.Summary? ==> r.language == language && r.action == action && r.target == target
    ensures r.Summary? && proc.NotFound? ==>
      !r.success && r.error == Some(NotFoundMessage(BaseCommand(language, action).value[0])) && r.issues == []
    ensures r.Summary? && proc.Exited? ==>
      var tool, code, out, err := BaseCommand(language, action).value[0], proc.code, Strip(proc.stdout), Strip(proc.stderr);
      && (r.success <==> !LooksNotFound(tool, code, err) && (if action == "lint" then code == 0 else code == 0 || code == 1))
      && (LooksNotFound(tool, code, err) ==> r.error == Some(NotFoundMessage(tool)))
      && (!LooksNotFound(tool, code, err) ==>
            r.error == (if action == "lint" then (if code != 0 then Some(Flake8Error(code, err)) else None)
                        else if code > 1 then Some("Black execution error (Exit Code: " + IntToString(code) + "). Stderr: " + err)
                        else None))
      && r.issues == (if action == "lint" then Issues(SplitLines(out)) else [])
      && r.issueCount == |r.issues|
      && r.filesFormatted == (if action == "format" && code == 1 then Count(err, "reformatted") else 0)
      && r.message == (if action == "format" && code == 1 then Some("Files were reformatted.")
                       else if action == "format" && code == 0 then Some("No changes needed or formatting applied successfully.")
                       else None)
  {
    var base := BaseCommand(language, action);
    if base.None? {
      return Refused(language, action, target, "Unsupported language or action.");
    }
    var tool := base.value[0];
    r := Summary(language, action, target, false, None, [], 0, 0, None);
    if proc.NotFound? {
      r := r.(success := false, error := Some(NotFoundMessage(tool)));
      return;
    }
    r := Completed(language, action, target, tool, proc.code, Strip(proc.stdout), Strip(proc.stderr));
  }

  /** The part of `run_tool` after the command has run: `tool` is the
      command's executable, `code` its exit status, `out` and `err` its
      stripped output streams. */
  method Completed(language: string, action: string, target: string, tool: string, code: int, out: string, err: string)
    returns (r: Outcome)
    requires action == "lint" || action == "format"
    ensures r.Summary? && r.language == language && r.action == action && r.target == target
    ensures r.success <==> !LooksNotFound(tool, code, err) && (if action == "lint" then code == 0 else code == 0 || code == 1)
    ensures LooksNotFound(tool, code, err) ==> r.error == Some(NotFoundMessage(tool))
    ensures !LooksNotFound(tool, code, err) ==>
      r.error == (if action == "lint" then (if code != 0 then Some(Flake8Error(code, err)) else None)
                  else if code > 1 then Some("Black execution error (Exit Code: " + IntToString(code) + "). Stderr: " + err)
                  else None)
    ensures r.issues == (if action == "lint" then Issues(SplitLines(out)) else [])
    ensures r.issueCount == |r.issues|
    ensures r.filesFormatted == (if action == "format" && code == 1 then Count(err, "reformatted") else 0)
    ensures r.message == (if action == "format" && code == 1 then Some("Files were reformatted.")
                          else if action == "format" && code == 0 then Some("No changes needed or formatting applied successfully.")
                          else None)
  {
    r := Summary(language, action, target, false, None, [], 0, 0, None);
    if action == "lint" {
      var issues := ParseFlake8Output(SplitLines(out));
      r := r.(issues := issues, issueCount := |issues|, success := code == 0);
      if code != 0 && err != [] {
        r := r.(error := Some("Flake8 execution error (Exit Code: " + IntToString(code) + "). Stderr: " + err));
      } else if code != 0 {
        r := r.(error := Some("Flake8 execution error (Exit Code: " + IntToString(code) + "). Check configuration or paths."));
      }
    } else if action == "format" {
      r := r.(success := code == 0 || code == 1);
      if code == 1 {
        r := r.(message := Some("Files were reformatted."), filesFormatted := Count(err, "reformatted"));
      } else if code == 0 {
        r := r.(message := Some("No changes needed or formatting applied successfully."));
      } else if code > 1 {
        r := r.(error := Some("Black execution error (Exit Code: " + IntToString(code) + "). Stderr: " + err));
      }
    }
    if code == 127 || Contains(err, "command not found") || Contains(err, "'" + tool + "' is not recognized") {
      r := r.(success := false, error := Some(NotFoundMessage(tool)));
    }
  }

  /** The exit status of lines 161-163. */
  function ExitStatus(action: string, r: Outcome): (code: int)
    ensures code == 0 || code == 1
    ensures code == 0 <==> Succeeded(r) && !(action == "lint" && r.issueCount > 0)
  {
    if !Succeeded(r) || (action == "lint" && r.issueCount > 0) then 1 else 0
  }

  /** The script: `args` are the three command-line arguments, `targetExists`
      is `os.path.exists(target)`. A wrong number of arguments gives no
      result and exit status 1. */
  method RunLinterScript(args: seq<string>, targetExists: bool, proc: Proc) returns (r: Option<Outcome>, exit: int)
    ensures |args| != 3 ==> r.None? && exit == 1
    ensures |args| == 3 && !targetExists ==>
      r == Some(Refused(Lower(args[0]), Lower(args[1]), args[2], "Target path does not exist: " + args[2])) && exit == 1
    ensures |args| == 3 && targetExists ==>
      r.Some? && r.value.language == Lower(args[0]) && r.value.action == Lower(args[1]) && exit == ExitStatus(Lower(args[1]), r.value)
    ensures exit == 0 <==> r.Some? && Succeeded(r.value) && !(r.value.action == "lint" && r.value.issueCount > 0)
  {
    if |args| != 3 {
      return None, 1;
    }
    var lang, act, tgt := Lower(args[0]), Lower(args[1]), args[2];
    if !targetExists {
      return Some(Refused(lang, act, tgt, "Target path does not exist: " + tgt)), 1;
    }
    var result := RunTool(lang, act, tgt, proc);
    r := Some(result);
    exit := ExitStatus(act, result);
  }

  /** A lint run succeeds with exit status 0 exactly when flake8 exits 0, no
      shell reports it missing, and every line of its report is blank. */
  lemma LintExitZero(args: seq<string>, proc: Proc, r: Outcome)
    requires |args| == 3 && Lower(args[0]) == "python" && Lower(args[1]) == "lint" && proc.Exited?
    requires r.Summary? && r.action == "lint" && r.issueCount == |r.issues|
    requires r.issues == Issues(SplitLines(Strip(proc.stdout)))
    requires r.success <==> !LooksNotFound("flake8", proc.code, Strip(proc.stderr)) && proc.code == 0
    ensures ExitStatus("lint", r) == 0 <==>
      proc.code == 0 && !LooksNotFound("flake8", proc.code, Strip(proc.stderr)) &&
      forall k :: 0 <= k < |SplitLines(Strip(proc.stdout))| ==> IsBlank(SplitLines(Strip(proc.stdout))[k])
  {
    NoNonBlank(SplitLines(Strip(proc.stdout)));
  }

  lemma {:induction false} NoNonBlank(lines: seq<string>)
    ensures NonBlank(lines) == [] <==> forall k :: 0 <= k < |lines| ==> IsBlank(lines[k])
  {
    if lines != [] {
      var init := lines[..|lines| - 1];
      NoNonBlank(init);
      assert forall k :: 0 <= k < |init| ==> init[k] == lines[k];
    }
  }
}
