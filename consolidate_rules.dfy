/**
 * rules/tools/consolidate_rules.py: every `.mdc` file under the rules
 * directory that no exclude pattern catches, concatenated into one Markdown
 * document in path order. A file is named by the parts of its path relative
 * to the rules directory; `rglob`, `glob`, `Path.match` and reading a file
 * are parameters.
 */
module ConsolidateRules {

  import opened Wrappers
  import opened Strings
  import opened Sorting

  /** The parts of a path relative to the rules directory. */
  type Parts = seq<string>

  /** A path as `rglob` reports it: at least one part, no part empty or
      holding a separator (the NUL character cannot occur in a path). */
  predicate CleanParts(p: Parts) {
    |p| >= 1 && forall k :: 0 <= k < |p| ==> p[k] != [] && '/' !in p[k] && '\0' !in p[k]
  }

  /** `str(relative_path)` */
  function Rel(p: Parts): string { Join(p, '/') }

  // ---------------------------------------------------------------------
  // Path order

  /** `p < q` on paths: their lists of parts compared lexicographically,
      each part as a string. */
  predicate PartsLess(p: Parts, q: Parts)
    decreases |p|
  {
    if p == [] then q != []
    else if q == [] then false
    else if p[0] != q[0] then Less(p[0], q[0])
    else PartsLess(p[1..], q[1..])
  }

  /** The sort key of a path: its parts joined by the smallest character. */
  function Key(p: Parts): string { Join(p, '\0') }

  /** Strings compare by their first difference, whatever follows them,
      when what follows is empty or starts with the smallest character. */
  lemma {:induction false} LessBeforeTail(a: string, b: string, x: string, y: string)
    requires '\0' !in a && '\0' !in b && a != b
    requires x == [] || x[0] == '\0'
    requires y == [] || y[0] == '\0'
    ensures Less(a + x, b + y) <==> Less(a, b)
    decreases |a|
  {
    if a == [] {
      assert b[0] in b;
    } else if b == [] {
      assert a[0] in a;
    } else if a[0] == b[0] {
      assert a[1..] != b[1..] by { assert a == [a[0]] + a[1..] && b == [b[0]] + b[1..]; }
      assert '\0' !in a[1..] && '\0' !in b[1..] by {
        assert forall k :: 0 <= k < |a[1..]| ==> a[1..][k] == a[k + 1];
        assert forall k :: 0 <= k < |b[1..]| ==> b[1..][k] == b[k + 1];
      }
      LessBeforeTail(a[1..], b[1..], x, y);
      assert (a + x)[1..] == a[1..] + x && (b + y)[1..] == b[1..] + y;
    }
  }

  /** A common beginning does not change the order. */
  lemma {:induction false} LessAfterCommon(a: string, x: string, y: string)
    ensures Less(a + x, a + y) <==> Less(x, y)
    decreases |a|
  {
    if a == [] {
      assert a + x == x && a + y == y;
    } else {
      assert (a + x)[0] == a[0] == (a + y)[0];
      assert Less(a + x, a + y) == Less((a + x)[1..], (a + y)[1..]);
      LessAfterCommon(a[1..], x, y);
      assert (a + x)[1..] == a[1..] + x && (a + y)[1..] == a[1..] + y;
    }
  }

  function KeyTail(p: Parts): string
    requires |p| >= 1
  {
    if |p| == 1 then "" else ['\0'] + Key(p[1..])
  }

  lemma KeyUnfold(p: Parts)
    requires |p| >= 1
    ensures Key(p) == p[0] + KeyTail(p)
  {
  }

  /** Ordering the keys as strings orders the paths as pathlib does. */
  lemma {:induction false} KeyOrder(p: Parts, q: Parts)
    requires CleanParts(p) && CleanParts(q)
    ensures Less(Key(p), Key(q)) <==> PartsLess(p, q)
    decreases |p|
  {
    KeyUnfold(p);
    KeyUnfold(q);
    assert p[0] in p && q[0] in q;
    if p[0] != q[0] {
      LessBeforeTail(p[0], q[0], KeyTail(p), KeyTail(q));
    } else {
      LessAfterCommon(p[0], KeyTail(p), KeyTail(q));
      if |p| > 1 && |q| > 1 {
        assert CleanParts(p[1..]) by {
          assert forall k :: 0 <= k < |p[1..]| ==> p[1..][k] == p[k + 1];
        }
        assert CleanParts(q[1..]) by {
          assert forall k :: 0 <= k < |q[1..]| ==> q[1..][k] == q[k + 1];
        }
        KeyOrder(p[1..], q[1..]);
        LessAfterCommon(['\0'], Key(p[1..]), Key(q[1..]));
      }
    }
  }

  /** The key of a path can be split back into its parts. */
  lemma KeyParts(p: Parts)
    requires CleanParts(p)
    ensures Split(Key(p), '\0') == p
  {
    SplitJoin(p, '\0');
  }

  // ---------------------------------------------------------------------
  // Exclusion

  /** What iterating `rules_dir_path.glob(pattern)` yields before it ends,
      and the message of the exception that ended it, if one did. */
  datatype GlobResult = GlobResult(found: seq<Parts>, error: Option<string>)

  /** What `mdc_file.match(pattern)` gives: a verdict or an exception. */
  datatype MatchResult = Matches | NoMatch | MatchError(message: string)

  function Elements(s: seq<Parts>): set<Parts> { set p | p in s }

  /** The files of `files` that `Path.match` catches, in iteration order,
      up to the first exception (whose message is returned with them). */
  function MatchScan(pattern: string, files: seq<Parts>, matches: (string, Parts) -> MatchResult): (set<Parts>, Option<string>)
  {
    if files == [] then ({}, None)
    else
      var (caught, error) := MatchScan(pattern, files[..|files| - 1], matches);
      if error.Some? then (caught, error)
      else match matches(pattern, files[|files| - 1])
        case Matches => (caught + {files[|files| - 1]}, None)
        case NoMatch => (caught, None)
        case MatchError(m) => (caught, Some(m))
  }

  /** Once `Path.match` has raised, the files after are not looked at. */
  lemma {:induction false} MatchScanStops(pattern: string, files: seq<Parts>, k: nat, matches: (string, Parts) -> MatchResult)
    requires k <= |files| && MatchScan(pattern, files[..k], matches).1.Some?
    ensures MatchScan(pattern, files, matches) == MatchScan(pattern, files[..k], matches)
    decreases |files|
  {
    if k < |files| {
      var n := |files|;
      assert files[..n - 1][..k] == files[..k];
      MatchScanStops(pattern, files[..n - 1], k, matches);
    } else {
      assert files[..k] == files;
    }
  }

  /** Without an exception, the scan catches exactly the files that match. */
  lemma {:induction false} MatchScanCatches(pattern: string, files: seq<Parts>, matches: (string, Parts) -> MatchResult)
    requires forall k :: 0 <= k < |files| ==> !matches(pattern, files[k]).MatchError?
    ensures MatchScan(pattern, files, matches).1.None?
    ensures forall p :: p in MatchScan(pattern, files, matches).0 <==> p in files && matches(pattern, p).Matches?
  {
    if files != [] {
      var n := |files|;
      MatchScanCatches(pattern, files[..n - 1], matches);
      assert files == files[..n - 1] + [files[n - 1]];
    }
  }

  /** What one pattern adds to `excluded_files`, and the message of the
      exception that stopped it: everything `glob` yields, then, when `glob`
      did not raise, the `.mdc` files that `Path.match` catches. */
  function PatternOutcome(pattern: string, allFiles: seq<Parts>, glob: string -> GlobResult, matches: (string, Parts) -> MatchResult): (set<Parts>, Option<string>)
  {
    var g := glob(pattern);
    if g.error.Some? then (Elements(g.found), g.error)
    else
      var (caught, error) := MatchScan(pattern, allFiles, matches);
      (Elements(g.found) + caught, error)
  }

  /** `excluded_files` after the loop over `exclude_patterns`. */
  function Exclusions(patterns: seq<string>, allFiles: seq<Parts>, glob: string -> GlobResult, matches: (string, Parts) -> MatchResult): set<Parts>
  {
    if patterns == [] then {}
    else
      Exclusions(patterns[..|patterns| - 1], allFiles, glob, matches)
      + PatternOutcome(patterns[|patterns| - 1], allFiles, glob, matches).0
  }

  function Warning(pattern: string, message: string): string {
    "Warning: Could not process exclude pattern '" + pattern + "': " + message
  }

  /** The warnings printed, one per pattern that raised, in pattern order. */
  function Warnings(patterns: seq<string>, allFiles: seq<Parts>, glob: string -> GlobResult, matches: (string, Parts) -> MatchResult): seq<string>
  {
    if patterns == [] then []
    else
      var p := patterns[|patterns| - 1];
      var error := PatternOutcome(p, allFiles, glob, matches).1;
      Warnings(patterns[..|patterns| - 1], allFiles, glob, matches)
      + (if error.Some? then [Warning(p, error.value)] else [])
  }

  /** A path is excluded exactly when some pattern adds it: a pattern that
      raises stops only its own scan, never the later patterns. */
  lemma {:induction false} ExclusionsUnion(patterns: seq<string>, allFiles: seq<Parts>, glob: string -> GlobResult, matches: (string, Parts) -> MatchResult, p: Parts)
    ensures p in Exclusions(patterns, allFiles, glob, matches)
      <==> exists i :: 0 <= i < |patterns| && p in PatternOutcome(patterns[i], allFiles, glob, matches).0
  {
    if patterns != [] {
      var n := |patterns|;
      ExclusionsUnion(patterns[..n - 1], allFiles, glob, matches, p);
      assert forall i :: 0 <= i < n - 1 ==> patterns[..n - 1][i] == patterns[i];
    }
  }

  /** The set only grows as patterns are processed. */
  lemma {:induction false} ExclusionsGrow(patterns: seq<string>, i: nat, j: nat, allFiles: seq<Parts>, glob: string -> GlobResult, matches: (string, Parts) -> MatchResult)
    requires i <= j <= |patterns|
    ensures Exclusions(patterns[..i], allFiles, glob, matches) <= Exclusions(patterns[..j], allFiles, glob, matches)
    decreases j
  {
    if i < j {
      ExclusionsGrow(patterns, i, j - 1, allFiles, glob, matches);
      assert patterns[..j][..j - 1] == patterns[..j - 1];
    }
  }

  /** A pattern that raises nothing excludes exactly what `glob` yields and
      the `.mdc` files it matches. */
  lemma PatternExcludes(pattern: string, allFiles: seq<Parts>, glob: string -> GlobResult, matches: (string, Parts) -> MatchResult)
    requires glob(pattern).error.None?
    requires forall k :: 0 <= k < |allFiles| ==> !matches(pattern, allFiles[k]).MatchError?
    ensures PatternOutcome(pattern, allFiles, glob, matches).1.None?
    ensures forall p :: (p in PatternOutcome(pattern, allFiles, glob, matches).0
      <==> p in glob(pattern).found || (p in allFiles && matches(pattern, p).Matches?))
  {
    MatchScanCatches(pattern, allFiles, matches);
  }

  /** There is a warning exactly when some pattern raised, and never more
      than one per pattern. */
  lemma {:induction false} WarningsCount(patterns: seq<string>, allFiles: seq<Parts>, glob: string -> GlobResult, matches: (string, Parts) -> MatchResult)
    ensures |Warnings(patterns, allFiles, glob, matches)| <= |patterns|
    ensures Warnings(patterns, allFiles, glob, matches) == []
      <==> forall i :: 0 <= i < |patterns| ==> PatternOutcome(patterns[i], allFiles, glob, matches).1.None?
  {
    if patterns != [] {
      var n := |patterns|;
      WarningsCount(patterns[..n - 1], allFiles, glob, matches);
      assert forall i :: 0 <= i < n - 1 ==> patterns[..n - 1][i] == patterns[i];
    }
  }

  /** The loop over `exclude_patterns`: everything each pattern's `glob`
      yields is added, then the `.mdc` files it matches; an exception ends
      that pattern's work with a warning and the next pattern goes on. */
  method CollectExclusions(patterns: seq<string>, allFiles: seq<Parts>, glob: string -> GlobResult, matches: (string, Parts) -> MatchResult)
    returns (excluded: set<Parts>, warnings: seq<string>)
    ensures excluded == Exclusions(patterns, allFiles, glob, matches)
    ensures warnings == Warnings(patterns, allFiles, glob, matches)
  {
    excluded := {};
    warnings := [];
    for i := 0 to |patterns|
      invariant excluded == Exclusions(patterns[..i], allFiles, glob, matches)
      invariant warnings == Warnings(patterns[..i], allFiles, glob, matches)
    {
      var pattern := patterns[i];
      var before := excluded;
      var failure: Option<string> := None;
      var g := glob(pattern);
      for k := 0 to |g.found|
        invariant excluded == before + Elements(g.found[..k])
      {
        assert g.found[..k + 1] == g.found[..k] + [g.found[k]];
        excluded := excluded + {g.found[k]};
      }
      assert g.found[..|g.found|] == g.found;
      if g.error.Some? {
        failure := g.error;
      } else {
        var k := 0;
        while k < |allFiles| && failure.None?
          invariant k <= |allFiles|
          invariant before <= excluded
          invariant failure == MatchScan(pattern, allFiles[..k], matches).1
          invariant excluded == before + Elements(g.found) + MatchScan(pattern, allFiles[..k], matches).0
        {
          assert allFiles[..k + 1][..k] == allFiles[..k];
          var verdict := matches(pattern, allFiles[k]);
          if verdict.Matches? {
            excluded := excluded + {allFiles[k]};
          } else if verdict.MatchError? {
            failure := Some(verdict.message);
          }
          k := k + 1;
        }
        if failure.Some? {
          MatchScanStops(pattern, allFiles, k, matches);
        } else {
          assert allFiles[..k] == allFiles;
        }
      }
      if failure.Some? {
        warnings := warnings + [Warning(pattern, failure.value)];
      }
      assert patterns[..i + 1][..i] == patterns[..i];
    }
    assert patterns[..|patterns|] == patterns;
  }

  // ---------------------------------------------------------------------
  // Ordering

  /** `sorted([f for f in all_mdc_files if f.resolve() not in
      excluded_files])`: every file that is not excluded, once, in path
      order. */
  method SelectFiles(allFiles: seq<Parts>, excluded: set<Parts>) returns (files: seq<Parts>)
    requires forall k :: 0 <= k < |allFiles| ==> CleanParts(allFiles[k])
    ensures forall p :: p in files <==> p in allFiles && p !in excluded
    ensures forall i, j :: 0 <= i < j < |files| ==> PartsLess(files[i], files[j])
  {
    var keys: set<string> := {};
    for i := 0 to |allFiles|
      invariant forall s :: s in keys <==> exists k :: 0 <= k < i && allFiles[k] !in excluded && s == Key(allFiles[k])
    {
      if allFiles[i] !in excluded {
        keys := keys + {Key(allFiles[i])};
      }
    }
    var sortedKeys := SortSet(keys);
    forall k | 0 <= k < |sortedKeys|
      ensures exists m :: 0 <= m < |allFiles| && allFiles[m] !in excluded && sortedKeys[k] == Key(allFiles[m])
    {
      assert sortedKeys[k] in keys;
    }
    files := seq(|sortedKeys|, k requires 0 <= k < |sortedKeys| => Split(sortedKeys[k], '\0'));
    forall k | 0 <= k < |files|
      ensures files[k] in allFiles && files[k] !in excluded && sortedKeys[k] == Key(files[k])
    {
      var m :| 0 <= m < |allFiles| && allFiles[m] !in excluded && sortedKeys[k] == Key(allFiles[m]);
      KeyParts(allFiles[m]);
    }
    forall p | p in allFiles && p !in excluded
      ensures p in files
    {
      var m :| 0 <= m < |allFiles| && allFiles[m] == p;
      assert Key(p) in keys;
      var k :| 0 <= k < |sortedKeys| && sortedKeys[k] == Key(p);
      KeyParts(p);
      assert files[k] == p;
    }
    forall i, j | 0 <= i < j < |files|
      ensures PartsLess(files[i], files[j])
    {
      KeyOrder(files[i], files[j]);
    }
  }

  // ---------------------------------------------------------------------
  // The document

  /** What reading a file gives: its text, or the message of the exception
      raised while opening or reading it. */
  datatype ReadResult = Text(content: string) | ReadFailed(message: string)

  function Title(root: string): string { "# Consolidated Rules from: " + root + "\n\n" }

  function Header(rel: string): string { "## Source: `" + rel + "`\n\n" }

  const Separator := "\n\n---\n\n"

  /** What one file adds to the document: the optional header, then what
      was read. */
  function Section(rel: string, includeHeader: bool, r: ReadResult): string {
    Lead(rel, includeHeader) + Body(rel, r)
  }

  function Lead(rel: string, includeHeader: bool): string {
    if includeHeader then Header(rel) else ""
  }

  /** The content and the separator, or the header, the error note and a
      rule. */
  function Body(rel: string, r: ReadResult): string {
    match r
    case Text(c) => c + Separator
    case ReadFailed(e) => Header(rel) + ErrorNote(e)
  }

  function ErrorNote(e: string): string {
    "*Error reading file: " + e + "*\n\n" + "---\n\n"
  }

  /** The sections of the files, in list order. */
  function Sections(files: seq<Parts>, includeHeader: bool, read: Parts -> ReadResult): string {
    Pieces(files, p => Section(Rel(p), includeHeader, read(p)))
  }

  /** What `section` gives for each file, one after the other. */
  function Pieces(files: seq<Parts>, section: Parts -> string): string {
    if files == [] then ""
    else Pieces(files[..|files| - 1], section) + section(files[|files| - 1])
  }

  lemma {:induction false} PiecesAppend(a: seq<Parts>, b: seq<Parts>, section: Parts -> string)
    ensures Pieces(a + b, section) == Pieces(a, section) + Pieces(b, section)
    decreases |b|
  {
    if b == [] {
      assert a + b == a;
    } else {
      var n := |b|;
      PiecesAppend(a, b[..n - 1], section);
      assert (a + b)[..|a + b| - 1] == a + b[..n - 1];
      assert (a + b)[|a + b| - 1] == b[n - 1];
    }
  }

  /** The output file: the title line naming the resolved rules directory,
      then the sections. */
  function Document(root: string, files: seq<Parts>, includeHeader: bool, read: Parts -> ReadResult): string {
    Title(root) + Sections(files, includeHeader, read)
  }

  /** The header flag only puts the `## Source:` header in front of what
      the file adds. */
  lemma HeaderOnlyPrepends(rel: string, r: ReadResult)
    ensures Section(rel, true, r) == Header(rel) + Section(rel, false, r)
  {
  }

  /** A file that reads is copied verbatim and closed by the separator; one
      that fails starts with its header even when headers are off, has it
      twice when they are on, and ends with a rule. */
  lemma SectionShape(rel: string, h: bool, r: ReadResult)
    ensures r.Text? && !h ==> Section(rel, h, r) == r.content + Separator
    ensures r.ReadFailed? ==> StartsWith(Section(rel, h, r), Header(rel))
    ensures r.ReadFailed? && h ==> StartsWith(Section(rel, h, r), Header(rel) + Header(rel))
    ensures EndsWith(Section(rel, h, r), "---\n\n")
  {
    var lead, body := Lead(rel, h), Body(rel, r);
    BodyEnds(rel, r);
    SuffixOfConcat(lead, body, "---\n\n");
    if r.ReadFailed? {
      var note := ErrorNote(r.message);
      PrefixOfConcat(Header(rel), note);
      if h {
        assert lead + body == (Header(rel) + Header(rel)) + note;
        PrefixOfConcat(Header(rel) + Header(rel), note);
        PrefixOfConcat(Header(rel), Header(rel));
      }
    }
  }

  lemma BodyEnds(rel: string, r: ReadResult)
    ensures EndsWith(Body(rel, r), "---\n\n")
  {
    match r
    case Text(c) =>
      assert EndsWith(Separator, "---\n\n");
      SuffixOfConcat(c, Separator, "---\n\n");
    case ReadFailed(e) =>
      var x := "*Error reading file: " + e + "*\n\n";
      assert EndsWith("---\n\n", "---\n\n");
      SuffixOfConcat(x, "---\n\n", "---\n\n");
      SuffixOfConcat(Header(rel), ErrorNote(e), "---\n\n");
  }

  lemma SectionsAppend(a: seq<Parts>, b: seq<Parts>, h: bool, read: Parts -> ReadResult)
    ensures Sections(a + b, h, read) == Sections(a, h, read) + Sections(b, h, read)
  {
    PiecesAppend(a, b, p => Section(Rel(p), h, read(p)));
  }

  /** In the document the section of each file sits after the title and
      the sections of the files before it, and before those of the files
      after it. */
  lemma SectionInPlace(root: string, files: seq<Parts>, i: nat, h: bool, read: Parts -> ReadResult)
    requires i < |files|
    ensures Document(root, files, h, read)
      == Title(root) + Sections(files[..i], h, read) + Section(Rel(files[i]), h, read(files[i])) + Sections(files[i + 1..], h, read)
  {
    var section := p => Section(Rel(p), h, read(p));
    PieceInPlace(files, i, section);
    Regroup(Title(root), Sections(files[..i], h, read) + section(files[i]), Sections(files[i + 1..], h, read));
    Regroup(Title(root), Sections(files[..i], h, read), section(files[i]));
  }

  lemma PieceInPlace(files: seq<Parts>, i: nat, section: Parts -> string)
    requires i < |files|
    ensures Pieces(files, section) == Pieces(files[..i], section) + section(files[i]) + Pieces(files[i + 1..], section)
  {
    PiecesAround(files[..i], files[i], files[i + 1..], section);
    assert files[..i] + [files[i]] + files[i + 1..] == files;
  }

  lemma PiecesAround(a: seq<Parts>, y: Parts, b: seq<Parts>, section: Parts -> string)
    ensures Pieces(a + [y] + b, section) == Pieces(a, section) + section(y) + Pieces(b, section)
  {
    PiecesAppend(a + [y], b, section);
    assert (a + [y])[..|a|] == a;
  }

  lemma SectionsStep(files: seq<Parts>, i: nat, h: bool, read: Parts -> ReadResult)
    requires i < |files|
    ensures Sections(files[..i + 1], h, read) == Sections(files[..i], h, read) + Section(Rel(files[i]), h, read(files[i]))
  {
    assert files[..i + 1][..i] == files[..i];
  }

  /** Writing one file's part: the optional header, then the content and
      the separator, or the header, the error note and a rule. */
  method WriteSection(before: string, rel: string, includeHeader: bool, r: ReadResult) returns (output: string)
    ensures output == before + Section(rel, includeHeader, r)
  {
    output := before;
    if includeHeader {
      output := output + Header(rel);
    }
    ghost var head := output;
    assert head == before + Lead(rel, includeHeader);
    match r {
      case Text(c) =>
        output := output + c;
        output := output + Separator;
        Regroup(head, c, Separator);
      case ReadFailed(e) =>
        var note := "*Error reading file: " + e + "*\n\n";
        output := output + Header(rel);
        output := output + note;
        output := output + "---\n\n";
        Regroup(head + Header(rel), note, "---\n\n");
        Regroup(head, Header(rel), note + "---\n\n");
    }
    Regroup(before, Lead(rel, includeHeader), Body(rel, r));
  }

  /** Writing the output file: the title, then one file after the other. */
  method WriteRules(root: string, files: seq<Parts>, includeHeader: bool, read: Parts -> ReadResult) returns (output: string)
    ensures output == Document(root, files, includeHeader, read)
  {
    output := Title(root);
    for i := 0 to |files|
      invariant output == Title(root) + Sections(files[..i], includeHeader, read)
    {
      output := WriteSection(output, Rel(files[i]), includeHeader, read(files[i]));
      SectionsStep(files, i, includeHeader, read);
      Regroup(Title(root), Sections(files[..i], includeHeader, read), Section(Rel(files[i]), includeHeader, read(files[i])));
    }
    assert files[..|files|] == files;
  }

  // ---------------------------------------------------------------------
  // consolidate_rules and the command line

  /** `consolidate_rules(rules_dir, output_file, exclude_patterns,
      include_header)`. `root` is the resolved rules directory, `allFiles`
      what `rglob('*.mdc')` finds, in the iteration order of the set it is
      gathered into; `openError` is the exception raised creating the
      output directory or opening the output file, if any; `shownOutput`
      and `resolvedOutput` are the output path as given and resolved.
      Besides the files and the document, the lines printed other than the
      per-file ones are returned. */
  method Consolidate(root: string, allFiles: seq<Parts>, patterns: seq<string>, includeHeader: bool,
                     glob: string -> GlobResult, matches: (string, Parts) -> MatchResult, read: Parts -> ReadResult,
                     openError: Option<string>, shownOutput: string, resolvedOutput: string)
    returns (files: seq<Parts>, document: Option<string>, log: seq<string>)
    requires forall k :: 0 <= k < |allFiles| ==> CleanParts(allFiles[k])
    ensures forall p :: p in files <==> p in allFiles && p !in Exclusions(patterns, allFiles, glob, matches)
    ensures forall i, j :: 0 <= i < j < |files| ==> PartsLess(files[i], files[j])
    ensures document == if openError.None? then Some(Document(root, files, includeHeader, read)) else None
    ensures var excluded := Exclusions(patterns, allFiles, glob, matches);
      log == Warnings(patterns, allFiles, glob, matches)
        + ["Found " + IntToString(|files|) + " .mdc files to consolidate."]
        + (if excluded != {} then ["Excluded " + IntToString(|excluded|) + " files based on patterns."] else [])
        + [if openError.None? then "Successfully consolidated rules into: " + resolvedOutput
           else "Error writing to output file " + shownOutput + ": " + openError.value]
  {
    var excluded, warnings := CollectExclusions(patterns, allFiles, glob, matches);
    files := SelectFiles(allFiles, excluded);
    log := warnings + ["Found " + IntToString(|files|) + " .mdc files to consolidate."];
    if excluded != {} {
      log := log + ["Excluded " + IntToString(|excluded|) + " files based on patterns."];
    }
    if openError.None? {
      var output := WriteRules(root, files, includeHeader, read);
      document := Some(output);
      log := log + ["Successfully consolidated rules into: " + resolvedOutput];
    } else {
      document := None;
      log := log + ["Error writing to output file " + shownOutput + ": " + openError.value];
    }
  }

  /** `--exclude_patterns`: split on commas; absent or empty, no pattern. */
  function PatternList(arg: Option<string>): (patterns: seq<string>)
    ensures forall i :: 0 <= i < |patterns| ==> ',' !in patterns[i]
    ensures arg.Some? && arg.value != [] ==> |patterns| == |Split(arg.value, ',')| >= 1
  {
    if arg.Some? && arg.value != [] then Split(arg.value, ',') else []
  }

  /** A list of patterns without commas, written joined by commas, is read
      back unchanged. */
  lemma PatternListRoundTrip(patterns: seq<string>)
    requires |patterns| >= 1 && patterns != [""]
    requires forall i :: 0 <= i < |patterns| ==> ',' !in patterns[i]
    ensures PatternList(Some(Join(patterns, ','))) == patterns
  {
    SplitJoin(patterns, ',');
  }

  /** `--include_header`: on exactly when the text, lowercased, is
      `true`; on when the option is absent. */
  function IncludeHeaderOf(arg: Option<string>): bool {
    arg.None? || Lower(arg.value) == "true"
  }

  /** Any capitalisation of `true` turns headers on; any other text,
      `yes` and `1` included, turns them off. */
  lemma IncludeHeaderCases(x: string)
    ensures IncludeHeaderOf(None)
    ensures IncludeHeaderOf(Some("True")) && IncludeHeaderOf(Some("TRUE"))
    ensures !IncludeHeaderOf(Some("yes")) && !IncludeHeaderOf(Some("1")) && !IncludeHeaderOf(Some("false"))
    ensures |x| != 4 ==> !IncludeHeaderOf(Some(x))
    ensures IncludeHeaderOf(Some(x)) ==> forall i :: 0 <= i < 4 ==> x[i] == "true"[i] || x[i] == "TRUE"[i]
  {
    assert Lower("True") == "true";
    assert Lower("TRUE") == "true";
    assert Lower("yes")[0] == 'y';
    assert Lower("1")[0] == '1';
    assert Lower("false")[0] == 'f';
  }
}
