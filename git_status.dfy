/**
 * rules/tools/parse_git_status.py: reading the output of
 * `git status --porcelain=v1 -uall` (two status columns X and Y, a space,
 * then the path) into staged, unstaged, untracked and conflicting entries.
 */
module GitStatus {

  import opened Wrappers
  import opened Strings
  import opened Subprocess

  /** One `file_info` record; `description` is absent for untracked files. */
  datatype FileInfo = FileInfo(path: string, xStatus: string, yStatus: string, description: Option<string>)

  datatype Status = Status(
    staged: seq<FileInfo>,
    unstaged: seq<FileInfo>,
    untracked: seq<FileInfo>,
    conflicts: seq<FileInfo>,
    isClean: bool)

  const CleanStatus := Status([], [], [], [], true)

  /** `line[:2]` */
  function Code(line: string): string { Take(line, 2) }

  /** `c.strip()` for one status column. */
  function StatusText(c: char): string { if IsSpace(c) then "" else [c] }

  /** `line[3:]`, without the surrounding quotes of a quoted path. */
  function PathOf(line: string): string {
    var p := if |line| >= 3 then line[3..] else "";
    if p != [] && p[0] == '"' && p[|p| - 1] == '"' then
      (if |p| >= 2 then p[1..|p| - 1] else "")
    else p
  }

  function Info(line: string): FileInfo
    requires |line| >= 2
  {
    FileInfo(PathOf(line), StatusText(line[0]), StatusText(line[1]), None)
  }

  /** The description of a staged (index column) change. */
  function StagedName(x: char): Option<string> {
    match x
    case 'M' => Some("Modified")
    case 'A' => Some("Added")
    case 'D' => Some("Deleted")
    case 'R' => Some("Renamed")
    case 'C' => Some("Copied")
    case _ => None
  }

  /** The description of an unstaged (work-tree column) change. */
  function UnstagedName(y: char): Option<string> {
    match y
    case 'M' => Some("Modified")
    case 'D' => Some("Deleted")
    case _ => None
  }

  /** What one line adds to each of the four lists. */
  function Untracked(line: string): seq<FileInfo> {
    if |line| >= 2 && Code(line) == "??" then [Info(line)] else []
  }

  function Conflicts(line: string): seq<FileInfo> {
    if |line| >= 2 && Code(line) == "UU" then [Info(line).(description := Some("Unmerged"))] else []
  }

  function Staged(line: string): seq<FileInfo> {
    if |line| >= 2 && Code(line) != "??" && Code(line) != "UU" && StagedName(line[0]).Some?
    then [Info(line).(description := StagedName(line[0]))]
    else []
  }

  function Unstaged(line: string): seq<FileInfo> {
    if |line| >= 2 && Code(line) != "??" && Code(line) != "UU" && UnstagedName(line[1]).Some?
    then [Info(line).(description := UnstagedName(line[1]))]
    else []
  }

  /** The records `f` gives for each line, in line order. */
  function Gather(lines: seq<string>, f: string -> seq<FileInfo>): seq<FileInfo> {
    if lines == [] then [] else f(lines[0]) + Gather(lines[1..], f)
  }

  lemma {:induction false} GatherAppend(lines: seq<string>, line: string, f: string -> seq<FileInfo>)
    ensures Gather(lines + [line], f) == Gather(lines, f) + f(line)
  {
    if lines == [] {
      assert [line][1..] == [];
    } else {
      assert (lines + [line])[1..] == lines[1..] + [line];
      GatherAppend(lines[1..], line, f);
    }
  }

  /** A line of length one: `xy[1]` raises IndexError. */
  /** The four lists grow by what line `i` gives. */
  lemma GatherNext(lines: seq<string>, i: nat)
    requires i < |lines|
    ensures Gather(lines[..i + 1], Staged) == Gather(lines[..i], Staged) + Staged(lines[i])
    ensures Gather(lines[..i + 1], Unstaged) == Gather(lines[..i], Unstaged) + Unstaged(lines[i])
    ensures Gather(lines[..i + 1], Untracked) == Gather(lines[..i], Untracked) + Untracked(lines[i])
    ensures Gather(lines[..i + 1], Conflicts) == Gather(lines[..i], Conflicts) + Conflicts(lines[i])
  {
    assert lines[..i] + [lines[i]] == lines[..i + 1];
    GatherAppend(lines[..i], lines[i], Staged);
    GatherAppend(lines[..i], lines[i], Unstaged);
    GatherAppend(lines[..i], lines[i], Untracked);
    GatherAppend(lines[..i], lines[i], Conflicts);
  }

  predicate HasShortLine(lines: seq<string>) {
    exists i :: 0 <= i < |lines| && |lines[i]| == 1
  }

  /** The specification of the loop over the lines. */
  function Summary(lines: seq<string>): Option<Status> {
    if HasShortLine(lines) then None
    else
      var s, u, n, c := Gather(lines, Staged), Gather(lines, Unstaged), Gather(lines, Untracked), Gather(lines, Conflicts);
      Some(Status(s, u, n, c, s == [] && u == [] && n == [] && c == []))
  }

  /** `output.strip().split('\n')` */
  function Lines(output: string): seq<string> {
    Split(Strip(output), '\n')
  }

  /** How the branches of the loop body route one line of two or more
      characters. */
  lemma Routing(line: string)
    requires |line| >= 2
    ensures Code(line) == line[..2]
    ensures Code(line) == "??" ==>
      Untracked(line) == [Info(line)] && Conflicts(line) == [] && Staged(line) == [] && Unstaged(line) == []
    ensures Code(line) == "UU" ==>
      Conflicts(line) == [Info(line).(description := Some("Unmerged"))] && Untracked(line) == [] && Staged(line) == [] && Unstaged(line) == []
    ensures Code(line) != "??" && Code(line) != "UU" ==>
      Untracked(line) == [] && Conflicts(line) == [] &&
      Staged(line) == (if line[0] in "MADRC" then [Info(line).(description := StagedName(line[0]))] else []) &&
      Unstaged(line) == (if line[1] in "MD" then [Info(line).(description := UnstagedName(line[1]))] else [])
  {
    assert line[0] in "MADRC" <==> StagedName(line[0]).Some?;
    assert line[1] in "MD" <==> UnstagedName(line[1]).Some?;
  }

  /** The loop of `parse_git_status_porcelain`: each non-empty line is
      classified by its two status columns; the result is `None` when a line
      is one character long (the IndexError `run_git_status` catches). */
  method ParseLines(lines: seq<string>) returns (r: Option<Status>)
    ensures r == Summary(lines)
  {
    var staged, unstaged, untracked, conflicts := [], [], [], [];
    var i := 0;
    while i < |lines|
      invariant 0 <= i <= |lines|
      invariant forall j :: 0 <= j < i ==> |lines[j]| != 1
      invariant staged == Gather(lines[..i], Staged)
      invariant unstaged == Gather(lines[..i], Unstaged)
      invariant untracked == Gather(lines[..i], Untracked)
      invariant conflicts == Gather(lines[..i], Conflicts)
    {
      var line := lines[i];
      GatherNext(lines, i);
      if line == "" {
        assert Staged(line) == [] && Unstaged(line) == [] && Untracked(line) == [] && Conflicts(line) == [];
        i := i + 1;
        continue;
      }
      if |line| < 2 {
        assert HasShortLine(lines) by { assert |lines[i]| == 1; }
        return None;
      }
      var s, u, n, c := RouteLine(line);
      staged, unstaged, untracked, conflicts := staged + s, unstaged + u, untracked + n, conflicts + c;
      i := i + 1;
    }
    assert lines[..|lines|] == lines;
    assert !HasShortLine(lines);
    var clean := staged == [] && unstaged == [] && untracked == [] && conflicts == [];
    r := Some(Status(staged, unstaged, untracked, conflicts, clean));
  }

  /** The loop body for one line of two or more characters: the records it
      appends to each list. */
  method RouteLine(line: string) returns (s: seq<FileInfo>, u: seq<FileInfo>, n: seq<FileInfo>, c: seq<FileInfo>)
    requires |line| >= 2
    ensures s == Staged(line) && u == Unstaged(line) && n == Untracked(line) && c == Conflicts(line)
  {
    Routing(line);
    s, u, n, c := [], [], [], [];
    var xy := line[..2];
    var x, y := line[0], line[1];
    var info := FileInfo(PathOf(line), StatusText(x), StatusText(y), None);
    assert info == Info(line);
    if xy == "??" {
      n := [info];
    } else if xy == "UU" {
      c := [info.(description := Some("Unmerged"))];
    } else {
      if x in "MADRC" {
        s := [info.(description := StagedName(x))];
      }
      if y in "MD" {
        u := [info.(description := UnstagedName(y))];
      }
    }
  }

  /** The whole of `parse_git_status_porcelain` as written. */
  function Porcelain(output: string): Option<Status> {
    if IsBlank(output) then Some(CleanStatus) else Summary(Lines(output))
  }

  method ParsePorcelain(output: string) returns (r: Option<Status>)
    ensures IsBlank(output) ==> r == Some(CleanStatus)
    ensures r == Porcelain(output)
  {
    var lines := Lines(output);
    if IsBlank(output) {
      return Some(CleanStatus);
    }
    r := ParseLines(lines);
  }

  /** A line that adds nothing: empty, or a status none of the four lists
      takes. */
  predicate Inert(line: string) {
    line == "" ||
    (|line| >= 2 && Code(line) != "??" && Code(line) != "UU"
     && StagedName(line[0]).None? && UnstagedName(line[1]).None?)
  }

  lemma LineInert(line: string)
    requires |line| != 1
    ensures Inert(line) <==> Staged(line) == [] && Unstaged(line) == [] && Untracked(line) == [] && Conflicts(line) == []
  {
  }

  /** The working tree is reported clean exactly when no line has a status
      the parser records. */
  lemma {:induction false} CleanIff(lines: seq<string>)
    requires Summary(lines).Some?
    ensures Summary(lines).value.isClean <==> forall j :: 0 <= j < |lines| ==> Inert(lines[j])
  {
    if lines != [] {
      assert forall j :: 0 <= j < |lines[1..]| ==> lines[1..][j] == lines[j + 1];
      assert !HasShortLine(lines[1..]);
      CleanIff(lines[1..]);
      LineInert(lines[0]);
      assert forall j :: 0 < j < |lines| ==> lines[j] == lines[1..][j - 1];
    }
  }

  /** Every record of a list comes from one particular line of the output:
      records keep the order and the text of the lines. */
  lemma {:induction false} GatherOrigin(lines: seq<string>, f: string -> seq<FileInfo>, k: nat)
    requires k < |Gather(lines, f)|
    ensures exists j, m :: 0 <= j < |lines| && 0 <= m < |f(lines[j])| && Gather(lines, f)[k] == f(lines[j])[m]
  {
    var head := f(lines[0]);
    if k < |head| {
      assert Gather(lines, f)[k] == f(lines[0])[k];
    } else {
      GatherOrigin(lines[1..], f, k - |head|);
      var j, m :| 0 <= j < |lines[1..]| && 0 <= m < |f(lines[1..][j])| && Gather(lines[1..], f)[k - |head|] == f(lines[1..][j])[m];
      assert lines[1..][j] == lines[j + 1];
    }
  }

  /** Staged records carry the status letter of the index column and its
      description; there is no staged record for `??` or `UU`. */
  lemma StagedRecord(lines: seq<string>, k: nat)
    requires k < |Gather(lines, Staged)|
    ensures var rec := Gather(lines, Staged)[k];
      rec.xStatus in {"M", "A", "D", "R", "C"} &&
      rec.description == StagedName(rec.xStatus[0])
  {
    GatherOrigin(lines, Staged, k);
  }

  /** Unstaged records carry the work-tree letter M or D and its description. */
  lemma UnstagedRecord(lines: seq<string>, k: nat)
    requires k < |Gather(lines, Unstaged)|
    ensures var rec := Gather(lines, Unstaged)[k];
      rec.yStatus in {"M", "D"} &&
      rec.description == UnstagedName(rec.yStatus[0])
  {
    GatherOrigin(lines, Unstaged, k);
  }

  /** Untracked records are exactly `??` lines and have no description;
      conflict records are `UU` lines described as "Unmerged". */
  lemma UntrackedAndConflictRecords(lines: seq<string>, k: nat)
    ensures k < |Gather(lines, Untracked)| ==>
      var rec := Gather(lines, Untracked)[k];
      rec.xStatus == "?" && rec.yStatus == "?" && rec.description.None?
    ensures k < |Gather(lines, Conflicts)| ==>
      var rec := Gather(lines, Conflicts)[k];
      rec.xStatus == "U" && rec.yStatus == "U" && rec.description == Some("Unmerged")
  {
    if k < |Gather(lines, Untracked)| {
      GatherOrigin(lines, Untracked, k);
      var j, m :| 0 <= j < |lines| && 0 <= m < |Untracked(lines[j])| && Gather(lines, Untracked)[k] == Untracked(lines[j])[m];
      UntrackedLine(lines[j]);
    }
    if k < |Gather(lines, Conflicts)| {
      GatherOrigin(lines, Conflicts, k);
      var j, m :| 0 <= j < |lines| && 0 <= m < |Conflicts(lines[j])| && Gather(lines, Conflicts)[k] == Conflicts(lines[j])[m];
      ConflictLine(lines[j]);
    }
  }

  lemma UntrackedLine(line: string)
    ensures Untracked(line) == [] || Untracked(line) == [FileInfo(PathOf(line), "?", "?", None)]
  {
    if Untracked(line) != [] {
      assert line[..2] == "??";
      assert line[0] == '?' && line[1] == '?';
    }
  }

  lemma ConflictLine(line: string)
    ensures Conflicts(line) == [] || Conflicts(line) == [FileInfo(PathOf(line), "U", "U", Some("Unmerged"))]
  {
    if Conflicts(line) != [] {
      assert line[..2] == "UU";
      assert line[0] == 'U' && line[1] == 'U';
    }
  }

  // ---------------------------------------------------------------------
  // The leading-space defect and its correction.

  /** As written, a work-tree-only change on the first line (" M a.txt") is
      read as a staged change of the path ".txt": `strip()` removed the blank
      X column, shifting the line by one. */
  lemma LeadingSpaceMisread()
    ensures Porcelain(" M a.txt\n") == Some(Status([FileInfo(".txt", "M", "", Some("Modified"))], [], [], [], false))
  {
    var out := " M a.txt\n";
    var line := "M a.txt";
    StripExample();
    SplitPiece(line, '\n');
    assert Lines(out) == [line];
    assert !IsBlank(out) by { assert !IsSpace(out[1]); }
    OneLine(line);
    ShiftedLine();
  }

  /** The first line once `strip()` has removed its blank X column. */
  lemma ShiftedLine()
    ensures Staged("M a.txt") == [FileInfo(".txt", "M", "", Some("Modified"))]
    ensures Unstaged("M a.txt") == [] && Untracked("M a.txt") == [] && Conflicts("M a.txt") == []
  {
    var line := "M a.txt";
    assert line[0] == 'M' && line[1] == ' ';
    assert Code(line) == "M " by { assert line[..2] == "M "; }
    assert line[3..] == ".txt";
    assert PathOf(line) == ".txt";
    assert Info(line) == FileInfo(".txt", "M", "", None);
  }

  lemma StripExample()
    ensures Strip(" M a.txt\n") == "M a.txt"
  {
    var out := " M a.txt\n";
    assert out[1..] == "M a.txt\n";
    assert StripLeft(out) == "M a.txt\n";
    assert "M a.txt\n"[..7] == "M a.txt";
    assert StripRight("M a.txt\n") == "M a.txt";
  }

  /** The summary of a single entry line. */
  lemma OneLine(line: string)
    requires |line| >= 2
    ensures var s, u, n, c := Staged(line), Unstaged(line), Untracked(line), Conflicts(line);
      Summary([line]) == Some(Status(s, u, n, c, s == [] && u == [] && n == [] && c == []))
  {
    assert !HasShortLine([line]);
    GatherOne(line, Staged);
    GatherOne(line, Unstaged);
    GatherOne(line, Untracked);
    GatherOne(line, Conflicts);
  }

  lemma GatherOne(line: string, f: string -> seq<FileInfo>)
    ensures Gather([line], f) == f(line)
  {
    assert [line][1..] == [];
  }

  /** The intended reading: only trailing whitespace is removed, so the first
      line keeps its status columns. */
  function IntendedLines(output: string): seq<string> {
    Split(StripRight(output), '\n')
  }

  function IntendedPorcelain(output: string): Option<Status> {
    if IsBlank(output) then Some(CleanStatus) else Summary(IntendedLines(output))
  }

  method ParsePorcelainIntended(output: string) returns (r: Option<Status>)
    ensures r == IntendedPorcelain(output)
  {
    if IsBlank(output) {
      return Some(CleanStatus);
    }
    r := ParseLines(IntendedLines(output));
  }

  /** An entry as git writes it: two status columns, a space, a path that does
      not end in whitespace, no newline. */
  predicate EntryLine(e: string) {
    |e| >= 4 && e[2] == ' ' && '\n' !in e && !IsSpace(e[|e| - 1])
  }

  /** With the correction, the parser sees exactly the entries git printed,
      whatever their status columns. */
  lemma {:induction false} IntendedSeesEntries(entries: seq<string>)
    requires |entries| >= 1
    requires forall i :: 0 <= i < |entries| ==> EntryLine(entries[i])
    ensures IntendedLines(Join(entries, '\n') + "\n") == entries
  {
    var body := Join(entries, '\n');
    JoinEndsWithLast(entries, '\n');
    var out := body + "\n";
    assert StripRight(out) == body by {
      assert out[..|out| - 1] == body;
      assert IsSpace(out[|out| - 1]);
      assert StripRight(out) == StripRight(body);
      assert !IsSpace(body[|body| - 1]);
    }
    SplitJoin(entries, '\n');
  }

  lemma {:induction false} JoinEndsWithLast(ps: seq<string>, sep: char)
    requires |ps| >= 1 && ps[|ps| - 1] != []
    ensures |Join(ps, sep)| >= |ps[|ps| - 1]|
    ensures Join(ps, sep)[|Join(ps, sep)| - 1] == ps[|ps| - 1][|ps[|ps| - 1]| - 1]
  {
    if |ps| > 1 {
      JoinEndsWithLast(ps[1..], sep);
      assert ps[1..][|ps[1..]| - 1] == ps[|ps| - 1];
    }
  }

  /** The same output as in `LeadingSpaceMisread`, read as intended. */
  lemma LeadingSpaceIntended()
    ensures IntendedPorcelain(" M a.txt\n") == Some(Status([], [FileInfo("a.txt", "", "M", Some("Modified"))], [], [], false))
  {
    var line := " M a.txt";
    assert EntryLine(line);
    IntendedSeesEntries([line]);
    assert Join([line], '\n') + "\n" == " M a.txt\n";
    assert !IsBlank(" M a.txt\n") by { assert !IsSpace(" M a.txt\n"[1]); }
    OneLine(line);
    UnshiftedLine();
  }

  /** The same line with its status columns in place. */
  lemma UnshiftedLine()
    ensures Unstaged(" M a.txt") == [FileInfo("a.txt", "", "M", Some("Modified"))]
    ensures Staged(" M a.txt") == [] && Untracked(" M a.txt") == [] && Conflicts(" M a.txt") == []
  {
    var line := " M a.txt";
    assert line[0] == ' ' && line[1] == 'M';
    assert Code(line) == " M" by { assert line[..2] == " M"; }
    assert line[3..] == "a.txt";
    assert PathOf(line) == "a.txt";
    assert Info(line) == FileInfo("a.txt", "", "M", None);
  }

  // ---------------------------------------------------------------------
  // run_git_status and the exit status of the script.

  datatype Report = Report(status: Status) | Failed(error: string)

  /** `is_clean` of the printed result: false whenever there is an error. */
  predicate ReportClean(r: Report) {
    r.Report? && r.status.isClean
  }

  /** Which reading of the output `run_git_status` parses: the script as
      written, whose `strip()` also removes the first line's leading space,
      or the corrected one, which strips the end only. */
  datatype Reading = AsWritten | Intended

  function ParsedWith(reading: Reading, output: string): Option<Status> {
    match reading
    case AsWritten => Porcelain(output)
    case Intended => IntendedPorcelain(output)
  }

  /** `run_git_status`, given the outcome of `git rev-parse
      --is-inside-work-tree` and of `git status --porcelain=v1 -uall`; the
      script itself is the `AsWritten` reading. */
  method RunGitStatus(revParse: Proc, status: Proc, reading: Reading) returns (r: Report)
    ensures revParse.NotFound? ==> r == Failed("'git' command not found. Is Git installed and in PATH?")
    ensures revParse.Exited? && (revParse.code != 0 || Strip(revParse.stdout) != "true") ==>
      r == Failed("Not a git repository or git command not found.")
    ensures r.Report? <==>
      revParse.Exited? && revParse.code == 0 && Strip(revParse.stdout) == "true" &&
      status.Exited? && status.code == 0 && ParsedWith(reading, status.stdout).Some?
    ensures r.Report? ==> r.status == ParsedWith(reading, status.stdout).value
  {
    if revParse.NotFound? {
      return Failed("'git' command not found. Is Git installed and in PATH?");
    }
    if revParse.code != 0 || Strip(revParse.stdout) != "true" {
      return Failed("Not a git repository or git command not found.");
    }
    if status.NotFound? {
      return Failed("'git' command not found. Is Git installed and in PATH?");
    }
    if status.code != 0 {
      return Failed("Git command failed with exit code " + IntToString(status.code) + ". Stderr: " + Strip(status.stderr));
    }
    var parsed;
    if reading.AsWritten? {
      parsed := ParsePorcelain(status.stdout);
    } else {
      parsed := ParsePorcelainIntended(status.stdout);
    }
    if parsed.None? {
      return Failed("An unexpected error occurred: string index out of range");
    }
    r := Report(parsed.value);
  }

  /** The exit status of the script: 1 on an error or a tree that is not
      clean. */
  function ExitCode(r: Report): (code: int)
    ensures code == 0 <==> ReportClean(r)
    ensures code == 0 || code == 1
  {
    if r.Failed? || !r.status.isClean then 1 else 0
  }
}
