/**
 * tools/consolidate_code.py: every file under the project root, except the
 * `.git` directory, the output file and the script itself, written into one
 * document in path order, each under a header block, with a banner where
 * the directory changes. The directory walk is given as the list of files
 * it would report without pruning; reading a file is the parameter `read`.
 */
module ConsolidateCode {

  import opened Wrappers
  import opened Strings
  import opened Sorting

  /** `EXCLUDED_FILES` */
  predicate ExcludedFile(name: string) { name == "full_code.txt" || name == "consolidate_code.py" }

  /** `EXCLUDED_DIRS` */
  const ExcludedDir := ".git"

  /** `os.path.basename` of a normalised path. */
  function Basename(path: string): string {
    var parts := Split(path, '/');
    parts[|parts| - 1]
  }

  /** `os.path.dirname` of a normalised path: "" for a file at the root. */
  function Dirname(path: string): string {
    var parts := Split(path, '/');
    Join(parts[..|parts| - 1], '/')
  }

  /** `should_include_file(file_path)` */
  predicate ShouldIncludeFile(path: string) {
    !ExcludedFile(Basename(path))
  }

  /** `is_excluded_dir(path)`: some component of the normalised path is
      `.git`. */
  predicate IsExcludedDir(path: string) {
    ExcludedDir in Split(path, '/')
  }

  // ---------------------------------------------------------------------
  // collect_files

  /** A file under the root: the directories leading to it and its name,
      each a single path component. */
  datatype Entry = Entry(dirs: seq<string>, name: string)

  predicate Component(c: string) { c != [] && '/' !in c && c != "." && c != ".." }

  predicate Clean(e: Entry) {
    Component(e.name) && forall k :: 0 <= k < |e.dirs| ==> Component(e.dirs[k])
  }

  /** The normalised path of the file (`os.path.normpath(os.path.join(root,
      file))` with the root `.`). */
  function PathOf(e: Entry): string { Join(e.dirs + [e.name], '/') }

  /** The normalised path of the directory the walk reports the file in. */
  function RootOf(e: Entry): string { if e.dirs == [] then "." else Join(e.dirs, '/') }

  /** The normalised path of the `k`-th directory on the way to a file. */
  function DirPath(dirs: seq<string>, k: nat): string
    requires k < |dirs|
  {
    Join(dirs[..k + 1], '/')
  }

  /** The walk reaches the file: no directory on its way was pruned by
      `dirs[:] = [d for d in dirs if not is_excluded_dir(...)]`. */
  predicate Reached(e: Entry) {
    forall k :: 0 <= k < |e.dirs| ==> !IsExcludedDir(DirPath(e.dirs, k))
  }

  /** The file is appended by the loop body. */
  predicate Kept(e: Entry) {
    Reached(e) && !IsExcludedDir(RootOf(e)) && ShouldIncludeFile(PathOf(e))
  }

  /** The paths the loop appends, in walk order. */
  function KeptPaths(entries: seq<Entry>): seq<string> {
    if entries == [] then []
    else
      var e := entries[|entries| - 1];
      KeptPaths(entries[..|entries| - 1]) + (if Kept(e) then [PathOf(e)] else [])
  }

  /** `collect_files(base_dir)`: the kept paths, sorted. */
  method CollectFiles(entries: seq<Entry>) returns (files: seq<string>)
    ensures Sorted(files)
    ensures multiset(files) == multiset(KeptPaths(entries))
  {
    var collected: seq<string> := [];
    for i := 0 to |entries|
      invariant collected == KeptPaths(entries[..i])
    {
      assert entries[..i + 1][..i] == entries[..i];
      var e := entries[i];
      var excluded := false;
      for k := 0 to |e.dirs|
        invariant excluded <==> exists m :: 0 <= m < k && IsExcludedDir(DirPath(e.dirs, m))
      {
        if IsExcludedDir(DirPath(e.dirs, k)) {
          excluded := true;
        }
      }
      if !excluded && !IsExcludedDir(RootOf(e)) && ShouldIncludeFile(PathOf(e)) {
        collected := collected + [PathOf(e)];
      }
    }
    assert entries[..|entries|] == entries;
    files := Sort(collected);
  }

  lemma PathParts(e: Entry)
    requires Clean(e)
    ensures Split(PathOf(e), '/') == e.dirs + [e.name]
    ensures e.dirs != [] ==> Split(Join(e.dirs, '/'), '/') == e.dirs
  {
    SplitJoin(e.dirs + [e.name], '/');
    if e.dirs != [] {
      SplitJoin(e.dirs, '/');
    }
  }

  lemma PrefixParts(e: Entry, k: nat)
    requires Clean(e) && k < |e.dirs|
    ensures IsExcludedDir(DirPath(e.dirs, k)) <==> ExcludedDir in e.dirs[..k + 1]
  {
    SplitJoin(e.dirs[..k + 1], '/');
  }

  /** For a file of the tree, the loop keeps it exactly when no directory on
      its way is `.git` and its name is neither the output file nor the
      script. */
  lemma KeptIff(e: Entry)
    requires Clean(e)
    ensures Kept(e) <==> ExcludedDir !in e.dirs && !ExcludedFile(e.name)
  {
    PathParts(e);
    assert Basename(PathOf(e)) == e.name;
    if ExcludedDir in e.dirs {
      var k :| 0 <= k < |e.dirs| && e.dirs[k] == ExcludedDir;
      PrefixParts(e, k);
      assert e.dirs[..k + 1][k] == ExcludedDir;
    } else {
      forall k | 0 <= k < |e.dirs| ensures !IsExcludedDir(DirPath(e.dirs, k)) {
        PrefixParts(e, k);
      }
      if e.dirs == [] {
        SplitPiece(".", '/');
      }
    }
  }

  /** Every collected path is that of a file reached through no `.git`
      directory, whose name is not excluded. */
  lemma {:induction false} CollectedClean(entries: seq<Entry>, p: string)
    requires forall k :: 0 <= k < |entries| ==> Clean(entries[k])
    requires p in KeptPaths(entries)
    ensures exists k :: 0 <= k < |entries| && p == PathOf(entries[k]) && ExcludedDir !in entries[k].dirs && !ExcludedFile(entries[k].name)
  {
    var n := |entries|;
    var e := entries[n - 1];
    if p in KeptPaths(entries[..n - 1]) {
      CollectedClean(entries[..n - 1], p);
      var k :| 0 <= k < n - 1 && p == PathOf(entries[..n - 1][k]) &&
        ExcludedDir !in entries[..n - 1][k].dirs && !ExcludedFile(entries[..n - 1][k].name);
      assert entries[..n - 1][k] == entries[k];
    } else {
      KeptIff(e);
    }
  }

  // ---------------------------------------------------------------------
  // write_all_code_to_file

  /** What reading a file gives: its text, a decoding failure, or another
      error with its message. */
  datatype ReadResult = Text(content: string) | Undecodable | ReadError(message: string)

  /** The header block, the content (or the note replacing it) and the two
      closing newlines. */
  function Block(path: string, r: ReadResult): string {
    "# ======================\n# File: " + path + "\n# ======================\n\n"
    + (match r
       case Text(c) => c
       case Undecodable => "# --- BINARY FILE or UNSUPPORTED ENCODING ---\n"
       case ReadError(m) => "# ERROR READING FILE: " + m)
    + "\n\n"
  }

  /** `current_dir if current_dir else '.'`: what `last_dir` stores. */
  function RootAsDot(dir: string): string { if dir == [] then "." else dir }

  /** The two banner rules: the one the script applies, and the one its
      comments describe. */
  datatype BannerRule = AsWritten | Intended

  /** The banner written before a file in directory `current`, after a file
      whose stored directory is `last` (`None` before the first file). As
      written, `current` is compared raw with the stored `last`, in which ""
      has become "."; the intended rule compares both as stored. */
  function Banner(rule: BannerRule, last: Option<string>, current: string): string {
    var cur := if rule == AsWritten then current else RootAsDot(current);
    match last
    case Some(l) => if cur != l then "\n# >>> Entering Directory: " + cur + "\n\n" else ""
    case None => if cur != "." then "# >>> Entering Directory: " + RootAsDot(cur) + "\n\n" else ""
  }

  /** `last_dir` when file `i` is written. */
  function LastDir(files: seq<string>, i: nat): Option<string>
    requires i <= |files|
  {
    if i == 0 then None else Some(RootAsDot(Dirname(files[i - 1])))
  }

  /** What file `i` adds to the document. */
  function Piece(rule: BannerRule, files: seq<string>, i: nat, read: string -> ReadResult): string
    requires i < |files|
  {
    Banner(rule, LastDir(files, i), Dirname(files[i])) + Block(files[i], read(files[i]))
  }

  /** The document: the pieces of the files, in list order. */
  function Document(rule: BannerRule, files: seq<string>, read: string -> ReadResult): string {
    if files == [] then ""
    else Document(rule, files[..|files| - 1], read) + Piece(rule, files, |files| - 1, read)
  }

  lemma DocumentStep(rule: BannerRule, files: seq<string>, i: nat, read: string -> ReadResult)
    requires i < |files|
    ensures Document(rule, files[..i + 1], read) == Document(rule, files[..i], read) + Piece(rule, files, i, read)
  {
    assert files[..i + 1][..i] == files[..i];
    assert files[..i + 1][i] == files[i];
    if i > 0 {
      assert files[..i + 1][i - 1] == files[i - 1];
    }
    assert LastDir(files[..i + 1], i) == LastDir(files, i);
  }

  /** `write_all_code_to_file(file_list, output_path)`, with `last_dir`
      kept as the loop goes; every file gets its block, whatever reading it
      gives. */
  method WriteAllCode(rule: BannerRule, files: seq<string>, read: string -> ReadResult) returns (output: string)
    ensures output == Document(rule, files, read)
  {
    output := "";
    var lastDir: Option<string> := None;
    for i := 0 to |files|
      invariant output == Document(rule, files[..i], read)
      invariant lastDir == LastDir(files, i)
    {
      var path := files[i];
      var currentDir := Dirname(path);
      var cur := if rule == AsWritten then currentDir else RootAsDot(currentDir);
      var banner := "";
      if lastDir.Some? && cur != lastDir.value {
        banner := "\n# >>> Entering Directory: " + cur + "\n\n";
      } else if lastDir.None? && cur != "." {
        banner := "# >>> Entering Directory: " + RootAsDot(cur) + "\n\n";
      }
      assert banner == Banner(rule, lastDir, currentDir);
      DocumentStep(rule, files, i, read);
      output := output + (banner + Block(path, read(path)));
      lastDir := Some(RootAsDot(currentDir));
    }
    assert files[..|files|] == files;
  }

  /** As written, two files at the root, "a.txt" then "b.txt", get two
      banners: the first announces ".", the second an empty directory name,
      though neither file changes directory. */
  lemma RootBannersAsWritten(read: string -> ReadResult)
    ensures Piece(AsWritten, ["a.txt", "b.txt"], 0, read) == "# >>> Entering Directory: .\n\n" + Block("a.txt", read("a.txt"))
    ensures Piece(AsWritten, ["a.txt", "b.txt"], 1, read) == "\n# >>> Entering Directory: \n\n" + Block("b.txt", read("b.txt"))
  {
    var files := ["a.txt", "b.txt"];
    assert Dirname("a.txt") == "" by { SplitPiece("a.txt", '/'); }
    assert Dirname("b.txt") == "" by { SplitPiece("b.txt", '/'); }
    assert files[0] == "a.txt" && files[1] == "b.txt";
    assert LastDir(files, 0) == None;
    assert LastDir(files, 1) == Some(".");
    RootBanners();
  }

  lemma RootBanners()
    ensures Banner(AsWritten, None, "") == "# >>> Entering Directory: .\n\n"
    ensures Banner(AsWritten, Some("."), "") == "\n# >>> Entering Directory: \n\n"
  {
    assert RootAsDot("") == ".";
    assert "\n# >>> Entering Directory: " + "" + "\n\n" == "\n# >>> Entering Directory: \n\n";
  }

  /** With the intended rule a banner is written exactly when the directory
      (the root read as ".") differs from that of the previous file, or, for
      the first file, is not the root; it names that directory. */
  lemma IntendedBanners(files: seq<string>, i: nat)
    requires i < |files|
    ensures var dir := RootAsDot(Dirname(files[i]));
      var b := Banner(Intended, LastDir(files, i), Dirname(files[i]));
      && (b != "" <==> (if i == 0 then dir != "." else dir != RootAsDot(Dirname(files[i - 1]))))
      && (b != "" ==> b == (if i == 0 then "" else "\n") + "# >>> Entering Directory: " + dir + "\n\n")
  {
  }

  /** As written, every root-level file after the first gets a banner. */
  lemma RootFilesBanneredAsWritten(files: seq<string>, i: nat)
    requires 0 < i < |files| && Dirname(files[i]) == ""
    ensures Banner(AsWritten, LastDir(files, i), Dirname(files[i])) == "\n# >>> Entering Directory: \n\n"
  {
  }

  // ---------------------------------------------------------------------
  // __main__

  /** The script: collect from the root, write the document, and report how
      many files went in. The script itself uses the `AsWritten` banner rule;
      `Intended` gives the corrected document. */
  method Consolidate(rule: BannerRule, entries: seq<Entry>, read: string -> ReadResult)
    returns (files: seq<string>, document: string, message: string)
    ensures Sorted(files) && multiset(files) == multiset(KeptPaths(entries))
    ensures document == Document(rule, files, read)
    ensures message == "✅ Consolidated " + IntToString(|files|) + " files into full_code.txt"
  {
    files := CollectFiles(entries);
    document := WriteAllCode(rule, files, read);
    message := "✅ Consolidated " + IntToString(|files|) + " files into full_code.txt";
  }
}
