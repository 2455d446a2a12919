/**
 * tools/analyze_css_php_classes.py: the class names PHP templates use in
 * `class="..."` attributes, the class selectors CSS files define (following
 * `@import url(...)` within the CSS directory), and the two sorted lists the
 * script writes. The three regular expressions are hand-written scanners;
 * the filesystem is a map from absolute, normalised paths to file contents.
 */
module Classes {

  import opened Wrappers
  import opened Strings
  import opened Sorting

  // ---------------------------------------------------------------------
  // Scanners shared by the patterns.

  predicate IsQuote(c: char) { c == '\'' || c == '"' }

  /** The end of the run of whitespace (`\s*`) that begins at `p`. */
  function SpaceRunEnd(s: string, p: nat): (q: nat)
    requires p <= |s|
    ensures p <= q <= |s|
    ensures q < |s| ==> !IsSpace(s[q])
    decreases |s| - p
  {
    if p < |s| && IsSpace(s[p]) then SpaceRunEnd(s, p + 1) else p
  }

  /** The end of the run of `[^'"]` that begins at `p`. */
  function NonQuoteRunEnd(s: string, p: nat): (q: nat)
    requires p <= |s|
    ensures p <= q <= |s|
    ensures forall i :: p <= i < q ==> !IsQuote(s[i])
    ensures q < |s| ==> IsQuote(s[q])
    decreases |s| - p
  {
    if p < |s| && !IsQuote(s[p]) then NonQuoteRunEnd(s, p + 1) else p
  }

  /** `s[p:]` starts with `word`, letters compared without case
      (`re.IGNORECASE`; `word` is lower-case). */
  predicate WordAt(s: string, p: nat, word: string) {
    p + |word| <= |s| && forall i :: 0 <= i < |word| ==> LowerChar(s[p + i]) == word[i]
  }

  // ---------------------------------------------------------------------
  // PHP_CLASS_RE: class\s*=\s*['"]([^'"]+)['"], case-insensitive.

  /** A match of the pattern at `p`: the bounds of the captured value and the
      end of the match. `\s*` must take every space, as '=' and the quotes
      are not spaces, and `[^'"]+` must run up to a quote. */
  function PhpMatchAt(s: string, p: nat): (m: Option<(nat, nat, nat)>)
    requires p <= |s|
    ensures m.Some? ==> p < m.value.0 < m.value.1 < m.value.2 <= |s| && m.value.2 == m.value.1 + 1
    ensures m.Some? ==> forall i :: m.value.0 <= i < m.value.1 ==> !IsQuote(s[i])
  {
    if !WordAt(s, p, "class") then None
    else
      var a := SpaceRunEnd(s, p + 5);
      if a == |s| || s[a] != '=' then None
      else
        var b := SpaceRunEnd(s, a + 1);
        if b == |s| || !IsQuote(s[b]) then None
        else
          var c := NonQuoteRunEnd(s, b + 1);
          if c == b + 1 || c == |s| then None
          else Some((b + 1, c, c + 1))
  }

  /** `[m.group(1) for m in PHP_CLASS_RE.finditer(s[p:])]`: non-overlapping
      matches, each search resuming where the previous match ended. */
  function PhpValues(s: string, p: nat): (vs: seq<string>)
    requires p <= |s|
    ensures forall k :: 0 <= k < |vs| ==> vs[k] != [] && forall i :: 0 <= i < |vs[k]| ==> !IsQuote(vs[k][i])
    decreases |s| - p
  {
    if p == |s| then []
    else match PhpMatchAt(s, p)
      case Some((b, c, e)) =>
        var v := s[b..c];
        assert forall i :: 0 <= i < |v| ==> v[i] == s[b + i];
        [v] + PhpValues(s, e)
      case None => PhpValues(s, p + 1)
  }

  /** A token that is kept: none of `< > { } $`. */
  predicate Plausible(w: string) {
    '<' !in w && '>' !in w && '{' !in w && '}' !in w && '$' !in w
  }

  /** `s.replace(q, '')` for a one-character `q`. */
  function RemoveChar(s: string, q: char): (r: string)
    ensures q !in r
  {
    if s == [] then [] else (if s[0] == q then [] else [s[0]]) + RemoveChar(s[1..], q)
  }

  /** The removal of escaped quotes: `replace('\"', '').replace("\'", '')`. */
  function Unescape(w: string): string {
    RemoveChar(RemoveChar(w, '"'), '\'')
  }

  lemma {:induction false} RemoveAbsent(s: string, q: char)
    requires q !in s
    ensures RemoveChar(s, q) == s
  {
    if s != [] {
      assert q !in s[1..] by { assert forall i :: 0 <= i < |s[1..]| ==> s[1..][i] == s[i + 1]; }
      RemoveAbsent(s[1..], q);
      assert [s[0]] + s[1..] == s;
    }
  }

  /** The classes one attribute value contributes, token by token. */
  function TokenClasses(ws: seq<string>): set<string> {
    if ws == [] then {}
    else
      var w := ws[|ws| - 1];
      TokenClasses(ws[..|ws| - 1]) + (if w != [] && Plausible(w) && Unescape(w) != [] then {Unescape(w)} else {})
  }

  /** The classes a sequence of attribute values contributes. */
  function ValueClasses(vs: seq<string>): set<string> {
    if vs == [] then {} else ValueClasses(vs[..|vs| - 1]) + TokenClasses(Words(Strip(vs[|vs| - 1])))
  }

  lemma ValueClassesStep(vs: seq<string>, i: nat)
    requires i < |vs|
    ensures ValueClasses(vs[..i + 1]) == ValueClasses(vs[..i]) + TokenClasses(Words(Strip(vs[i])))
  {
    assert vs[..i + 1][..i] == vs[..i];
  }

  /** Every class `extract_php_classes` finds in a file's content. */
  function PhpClassesOf(content: string): set<string> {
    ValueClasses(PhpValues(content, 0))
  }

  // The shape of a PHP class.

  predicate QuoteFree(s: string) { forall i :: 0 <= i < |s| ==> !IsQuote(s[i]) }

  /** What `extract_php_classes` adds: non-empty, none of `< > { } $`, no
      whitespace, no quote. */
  predicate PhpClassShape(c: string) {
    c != [] && Plausible(c) && NoSpace(c) && QuoteFree(c)
  }

  lemma {:induction false} TokenClassesShape(ws: seq<string>, c: string)
    requires forall k :: 0 <= k < |ws| ==> NoSpace(ws[k]) && QuoteFree(ws[k])
    requires c in TokenClasses(ws)
    ensures PhpClassShape(c)
  {
    var w := ws[|ws| - 1];
    if c in TokenClasses(ws[..|ws| - 1]) {
      TokenClassesShape(ws[..|ws| - 1], c);
    } else {
      assert !('"' in w) && !('\'' in w);
      RemoveAbsent(w, '"');
      RemoveAbsent(w, '\'');
    }
  }

  lemma ConcatHolds(ws: seq<string>, k: nat, i: nat)
    requires k < |ws| && i < |ws[k]|
    ensures ws[k][i] in Concat(ws)
    decreases k
  {
    if k > 0 {
      ConcatHolds(ws[1..], k - 1, i);
      assert Concat(ws) == ws[0] + Concat(ws[1..]);
    } else {
      assert Concat(ws) == ws[0] + Concat(ws[1..]);
    }
  }

  lemma {:induction false} FilterHolds(s: string, x: char)
    requires x in FilterNonSpace(s)
    ensures x in s
  {
    if s != [] {
      if x != s[0] {
        FilterHolds(s[1..], x);
      }
    }
  }

  /** The words of a value hold only characters of the value. */
  lemma WordsQuoteFree(v: string)
    requires QuoteFree(v)
    ensures forall k :: 0 <= k < |Words(Strip(v))| ==> QuoteFree(Words(Strip(v))[k])
  {
    var t := Strip(v);
    assert QuoteFree(t);
    var ws := Words(t);
    WordsKeepText(t);
    forall k, i | 0 <= k < |ws| && 0 <= i < |ws[k]| ensures !IsQuote(ws[k][i]) {
      ConcatHolds(ws, k, i);
      FilterHolds(t, ws[k][i]);
    }
  }

  lemma {:induction false} ValueClassesShape(vs: seq<string>, c: string)
    requires forall k :: 0 <= k < |vs| ==> QuoteFree(vs[k])
    requires c in ValueClasses(vs)
    ensures PhpClassShape(c)
  {
    var v := vs[|vs| - 1];
    if c in ValueClasses(vs[..|vs| - 1]) {
      ValueClassesShape(vs[..|vs| - 1], c);
    } else {
      WordsQuoteFree(v);
      TokenClassesShape(Words(Strip(v)), c);
    }
  }

  /** Every class taken from a PHP file is non-empty, has none of
      `< > { } $`, no whitespace and no quote; in particular the removal of
      escaped quotes never changes it. */
  lemma PhpClassesShape(content: string, c: string)
    requires c in PhpClassesOf(content)
    ensures PhpClassShape(c)
    ensures Unescape(c) == c
  {
    var vs := PhpValues(content, 0);
    ValueClassesShape(vs, c);
    RemoveAbsent(c, '"');
    RemoveAbsent(c, '\'');
  }

  // ---------------------------------------------------------------------
  // CSS_SELECTOR_RE: \.([_a-zA-Z0-9-]+)(?:[:\[\(]|$)

  /** The class `[_a-zA-Z0-9-]`. */
  predicate IsClassChar(c: char) { IsAlnum(c) || c == '_' || c == '-' }

  predicate IsSelectorEnd(c: char) { c == ':' || c == '[' || c == '(' }

  function ClassRunEnd(s: string, p: nat): (q: nat)
    requires p <= |s|
    ensures p <= q <= |s|
    ensures forall i :: p <= i < q ==> IsClassChar(s[i])
    ensures q < |s| ==> !IsClassChar(s[q])
    decreases |s| - p
  {
    if p < |s| && IsClassChar(s[p]) then ClassRunEnd(s, p + 1) else p
  }

  /** `$` without MULTILINE: the end, or just before a final newline. */
  predicate AtEnd(s: string, q: nat) {
    q == |s| || (q == |s| - 1 && s[q] == '\n')
  }

  /** A selector match starts at `p`: a dot, a non-empty run of class
      characters (which, being greedy, is taken whole: a shorter run is
      followed by another class character) and then ':', '[', '(' or the
      end. */
  predicate SelectorAt(s: string, p: nat)
    requires p < |s|
  {
    s[p] == '.' &&
    var q := ClassRunEnd(s, p + 1);
    q > p + 1 && ((q < |s| && IsSelectorEnd(s[q])) || AtEnd(s, q))
  }

  /** `[m.group(1) for m in CSS_SELECTOR_RE.finditer(s[p:])]` */
  function CssNames(s: string, p: nat): (ns: seq<string>)
    requires p <= |s|
    decreases |s| - p
  {
    if p == |s| then []
    else if SelectorAt(s, p) then
      var q := ClassRunEnd(s, p + 1);
      [s[p + 1..q]] + CssNames(s, if q < |s| && IsSelectorEnd(s[q]) then q + 1 else q)
    else CssNames(s, p + 1)
  }

  /** The classes a CSS file defines. */
  function CssClassesOf(content: string): set<string> {
    set k | 0 <= k < |CssNames(content, 0)| :: CssNames(content, 0)[k]
  }

  predicate CssClassShape(c: string) {
    c != [] && forall i :: 0 <= i < |c| ==> IsClassChar(c[i])
  }

  /** Every name found is a whole run of class characters that follows a
      '.' and is followed by ':', '[', '(' or the end of the content. */
  lemma {:induction false} CssNamesFound(s: string, p: nat, k: nat)
    requires p <= |s| && k < |CssNames(s, p)|
    ensures CssClassShape(CssNames(s, p)[k])
    ensures exists d :: p <= d < |s| && SelectorAt(s, d) && CssNames(s, p)[k] == s[d + 1..ClassRunEnd(s, d + 1)]
    decreases |s| - p
  {
    if SelectorAt(s, p) {
      var q := ClassRunEnd(s, p + 1);
      var next := if q < |s| && IsSelectorEnd(s[q]) then q + 1 else q;
      if k == 0 {
        var name := s[p + 1..q];
        assert CssNames(s, p)[0] == name;
        assert forall i :: 0 <= i < |name| ==> name[i] == s[p + 1 + i];
      } else {
        CssNamesFound(s, next, k - 1);
      }
    } else {
      CssNamesFound(s, p + 1, k);
    }
  }

  /** Every class taken from a CSS file is a non-empty run of
      `[_a-zA-Z0-9-]` recognised by the selector rule. */
  lemma CssClassesShape(content: string, c: string)
    requires c in CssClassesOf(content)
    ensures CssClassShape(c)
    ensures exists d :: 0 <= d < |content| && SelectorAt(content, d) && c == content[d + 1..ClassRunEnd(content, d + 1)]
  {
    var k :| 0 <= k < |CssNames(content, 0)| && CssNames(content, 0)[k] == c;
    CssNamesFound(content, 0, k);
  }

  // ---------------------------------------------------------------------
  // CSS_IMPORT_RE: @import\s+url\((["\']?)(?P<url>.*?)\1\), case-insensitive.

  /** The first `j >= p` where `close` followed by ')' begins, with no
      newline (which `.` does not match) before it. */
  function CloseAt(s: string, p: nat, close: string): (j: Option<nat>)
    requires p <= |s|
    ensures j.Some? ==> p <= j.value <= |s| && StartsWith(s[j.value..], close + ")")
    ensures j.Some? ==> forall i :: p <= i < j.value ==> s[i] != '\n'
    decreases |s| - p
  {
    if StartsWith(s[p..], close + ")") then Some(p)
    else if p < |s| && s[p] != '\n' then CloseAt(s, p + 1, close)
    else None
  }

  /** The `url` group of a match at `p`. The quote group is greedy: a quote
      is taken first, and left to the url when no matching quote and ')'
      follow. */
  function ImportAt(s: string, p: nat): (url: Option<string>)
    requires p <= |s|
  {
    if !WordAt(s, p, "@import") then None
    else
      var a := SpaceRunEnd(s, p + 7);
      if a == p + 7 || !WordAt(s, a, "url(") then None
      else
        var u := a + 4;
        var quoted := if u < |s| && IsQuote(s[u]) then CloseAt(s, u + 1, [s[u]]) else None;
        if quoted.Some? then Some(s[u + 1..quoted.value])
        else match CloseAt(s, u, "")
          case Some(j) => Some(s[u..j])
          case None => None
  }

  /** `CSS_IMPORT_RE.search(line)`: the leftmost match. */
  function SearchImport(line: string, p: nat): Option<string>
    requires p <= |line|
    decreases |line| - p
  {
    match ImportAt(line, p)
    case Some(url) => Some(url)
    case None => if p == |line| then None else SearchImport(line, p + 1)
  }

  /** `f.readlines()`: each line keeps its '\n'. */
  function ReadLines(s: string): (ls: seq<string>)
    ensures Concat(ls) == s
    decreases |s|
  {
    if s == [] then []
    else
      var k := IndexOf(s, '\n');
      if k == -1 then [s]
      else
        var rest := ReadLines(s[k + 1..]);
        assert s == s[..k + 1] + s[k + 1..];
        [s[..k + 1]] + rest
  }

  // ---------------------------------------------------------------------
  // The three sets the script fills.

  /** Processing a file of `fs` leaves fewer files to process. */
  lemma FewerLeft(keys: set<string>, start: set<string>, f: string, now: set<string>)
    requires f in keys && f !in start && start + {f} <= now
    ensures |keys - now| < |keys - start|
  {
    assert keys - now <= (keys - start) - {f};
    SubsetCard(keys - now, (keys - start) - {f});
  }

  /** The classes defined by the readable files among `files`. */
  function ClassesOf(files: set<string>, fs: map<string, string>): set<string> {
    set f, c | f in files && f in fs && c in CssClassesOf(fs[f]) :: c
  }

  lemma ClassesOfSingle(f: string, fs: map<string, string>)
    requires f in fs
    ensures ClassesOf({f}, fs) == CssClassesOf(fs[f])
  {
  }

  /** The bookkeeping at the end of `extract_css_classes`: the file itself
      and the files its imports reached are the files newly processed. */
  lemma ClassesAdded(start: set<string>, f: string, imported: set<string>, now: set<string>, fs: map<string, string>)
    requires f in fs && f !in start
    requires imported == now - (start + {f}) && start + {f} <= now
    ensures ClassesOf(now - start, fs) == ClassesOf(imported, fs) + CssClassesOf(fs[f])
  {
    assert now - start == imported + {f};
    ClassesOfUnion(imported, {f}, fs);
    ClassesOfSingle(f, fs);
  }

  /** Going from `start` to `now`, only files of `fs` under `cssDir` were
      processed, and exactly their classes were added. */
  ghost predicate Reached(start: set<string>, now: set<string>, classesBefore: set<string>, classesNow: set<string>,
                          cssDir: string, fs: map<string, string>) {
    && start <= now
    && (forall f :: f in now - start ==> f in fs && StartsWith(f, cssDir))
    && classesNow == classesBefore + ClassesOf(now - start, fs)
  }

  /** Two rounds of processing, seen as one. */
  lemma ProcessedMore(start: set<string>, mid: set<string>, now: set<string>,
                      c0: set<string>, c1: set<string>, c2: set<string>, cssDir: string, fs: map<string, string>)
    requires Reached(start, mid, c0, c1, cssDir, fs) && Reached(mid, now, c1, c2, cssDir, fs)
    ensures Reached(start, now, c0, c2, cssDir, fs)
    ensures |fs.Keys - now| <= |fs.Keys - mid|
  {
    ReachedJoin(start, mid, now, c0, c1, c2, cssDir, fs);
    SubsetCard(fs.Keys - now, fs.Keys - mid);
  }

  lemma ReachedJoin(start: set<string>, mid: set<string>, now: set<string>,
                    c0: set<string>, c1: set<string>, c2: set<string>, cssDir: string, fs: map<string, string>)
    requires Reached(start, mid, c0, c1, cssDir, fs) && Reached(mid, now, c1, c2, cssDir, fs)
    ensures Reached(start, now, c0, c2, cssDir, fs)
  {
    ClassesOfUnion(mid - start, now - mid, fs);
    assert now - start == (mid - start) + (now - mid);
  }

  lemma ClassesOfUnion(a: set<string>, b: set<string>, fs: map<string, string>)
    ensures ClassesOf(a + b, fs) == ClassesOf(a, fs) + ClassesOf(b, fs)
  {
  }

  lemma {:induction false} SubsetCard(x: set<string>, y: set<string>)
    requires x <= y
    ensures |x| <= |y|
    decreases |y|
  {
    if x != {} {
      var e :| e in x;
      SubsetCard(x - {e}, y - {e});
    }
  }

  // ---------------------------------------------------------------------
  // The import graph.

  /** The file a line's `@import` leads to, when it is followed: the url,
      stripped and resolved against the importing file, lies under the CSS
      directory and is a file. */
  function ImportTarget(file: string, line: string, cssDir: string, fs: map<string, string>,
                        resolve: (string, string) -> string): (t: Option<string>)
    ensures t.Some? ==> t.value in fs && StartsWith(t.value, cssDir)
  {
    match SearchImport(line, 0)
    case None => None
    case Some(url) =>
      var imported := resolve(file, Strip(url));
      if StartsWith(imported, cssDir) && imported in fs then Some(imported) else None
  }

  /** The files followed from one line: its import target, if any. */
  function LineTargets(file: string, line: string, cssDir: string, fs: map<string, string>,
                       resolve: (string, string) -> string): set<string>
  {
    match ImportTarget(file, line, cssDir, fs, resolve)
    case Some(t) => {t}
    case None => {}
  }

  /** The files followed from the lines of `file`. */
  function TargetsOf(file: string, lines: seq<string>, cssDir: string, fs: map<string, string>,
                     resolve: (string, string) -> string): set<string>
  {
    set i, t | 0 <= i < |lines| && t in LineTargets(file, lines[i], cssDir, fs, resolve) :: t
  }

  /** The files followed from a readable CSS file. */
  function Targets(file: string, cssDir: string, fs: map<string, string>, resolve: (string, string) -> string): set<string>
    requires file in fs
  {
    TargetsOf(file, ReadLines(fs[file]), cssDir, fs, resolve)
  }

  /** Every readable file of `files` has all its imports in `all`. */
  ghost predicate ClosedIn(files: set<string>, all: set<string>, cssDir: string, fs: map<string, string>,
                           resolve: (string, string) -> string) {
    forall h :: h in files && h in fs ==> Targets(h, cssDir, fs, resolve) <= all
  }

  /** `s` is closed under the imports that stay within `within`. */
  ghost predicate StepClosed(s: set<string>, within: set<string>, cssDir: string, fs: map<string, string>,
                             resolve: (string, string) -> string) {
    forall h :: h in s && h in within && h in fs ==> Targets(h, cssDir, fs, resolve) * within <= s
  }

  /** Every file of `within` is reached from `roots` by imports that stay
      within `within`: `within` is included in each set that holds the roots
      lying in it and is closed under those imports. */
  ghost predicate LeastFrom(roots: set<string>, within: set<string>, cssDir: string, fs: map<string, string>,
                            resolve: (string, string) -> string) {
    forall s: set<string> :: roots * within <= s && StepClosed(s, within, cssDir, fs, resolve) ==> within <= s
  }

  /** `read` is the import closure of `roots`: it holds the roots, every
      import of one of its readable files, and nothing else, being included
      in every set with those two properties. */
  ghost predicate ImportClosure(read: set<string>, roots: set<string>, cssDir: string, fs: map<string, string>,
                                resolve: (string, string) -> string) {
    && roots <= read
    && ClosedIn(read, read, cssDir, fs, resolve)
    && forall s: set<string> :: roots <= s && ClosedIn(s, s, cssDir, fs, resolve) ==> read <= s
  }

  /** The import closure of a set of roots is unique. */
  lemma ImportClosureUnique(a: set<string>, b: set<string>, roots: set<string>, cssDir: string,
                            fs: map<string, string>, resolve: (string, string) -> string)
    requires ImportClosure(a, roots, cssDir, fs, resolve) && ImportClosure(b, roots, cssDir, fs, resolve)
    ensures a == b
  {
    assert a <= b;
    assert b <= a;
  }

  /** A line's target is one of the file's targets. */
  lemma LineTargetsIn(file: string, lines: seq<string>, i: nat, cssDir: string, fs: map<string, string>,
                      resolve: (string, string) -> string)
    requires i < |lines|
    ensures LineTargets(file, lines[i], cssDir, fs, resolve) <= TargetsOf(file, lines, cssDir, fs, resolve)
  {
    forall t | t in LineTargets(file, lines[i], cssDir, fs, resolve)
      ensures t in TargetsOf(file, lines, cssDir, fs, resolve)
    {
      assert 0 <= i < |lines| && t in LineTargets(file, lines[i], cssDir, fs, resolve);
    }
  }

  /** Closedness within a set carries over to a smaller one. */
  lemma StepRestrict(s: set<string>, w: set<string>, v: set<string>, cssDir: string, fs: map<string, string>,
                     resolve: (string, string) -> string)
    requires v <= w && StepClosed(s, w, cssDir, fs, resolve)
    ensures StepClosed(s, v, cssDir, fs, resolve)
  {
    forall h | h in s && h in v && h in fs
      ensures Targets(h, cssDir, fs, resolve) * v <= s
    {
      assert Targets(h, cssDir, fs, resolve) * w <= s;
    }
  }

  /** Two rounds of processing, one after the other: the files of each are
      reached from its roots, so the files of both are reached from the
      roots of both, and closedness carries over to the final set. */
  lemma {:induction false} Explored(r1: set<string>, r2: set<string>, start: set<string>, mid: set<string>, now: set<string>,
                                    cssDir: string, fs: map<string, string>, resolve: (string, string) -> string)
    requires start <= mid <= now
    requires ClosedIn(mid - start, mid, cssDir, fs, resolve) && ClosedIn(now - mid, now, cssDir, fs, resolve)
    requires LeastFrom(r1, mid - start, cssDir, fs, resolve) && LeastFrom(r2, now - mid, cssDir, fs, resolve)
    ensures ClosedIn(now - start, now, cssDir, fs, resolve)
    ensures LeastFrom(r1 + r2, now - start, cssDir, fs, resolve)
  {
    var a, b := mid - start, now - mid;
    assert now - start == a + b;
    forall s: set<string> | (r1 + r2) * (a + b) <= s && StepClosed(s, a + b, cssDir, fs, resolve)
      ensures a + b <= s
    {
      StepRestrict(s, a + b, a, cssDir, fs, resolve);
      StepRestrict(s, a + b, b, cssDir, fs, resolve);
      assert r1 * a <= s;
      assert r2 * b <= s;
    }
  }

  /** A file processed before the files its imports lead to: when those
      were reached from its targets, all of them are reached from the file. */
  lemma RootFirst(root: string, n: set<string>, cssDir: string, fs: map<string, string>,
                  resolve: (string, string) -> string)
    requires root in fs && root !in n
    requires LeastFrom(Targets(root, cssDir, fs, resolve), n, cssDir, fs, resolve)
    ensures LeastFrom({root}, {root} + n, cssDir, fs, resolve)
  {
    forall s: set<string> | {root} * ({root} + n) <= s && StepClosed(s, {root} + n, cssDir, fs, resolve)
      ensures {root} + n <= s
    {
      assert root in s;
      assert Targets(root, cssDir, fs, resolve) * ({root} + n) <= s;
      StepRestrict(s, {root} + n, n, cssDir, fs, resolve);
    }
  }

  /** A file followed by the files its imports reach, seen from before the
      file was marked processed: the classes, closedness and reach of the
      whole call. */
  lemma RootExplored(root: string, start: set<string>, marked: set<string>, now: set<string>,
                     c0: set<string>, c1: set<string>, cssDir: string, fs: map<string, string>,
                     resolve: (string, string) -> string)
    requires root in fs && root !in start
    requires marked == start + {root} && marked <= now
    requires c1 == c0 + ClassesOf(now - marked, fs) + CssClassesOf(fs[root])
    requires Targets(root, cssDir, fs, resolve) <= now
    requires ClosedIn(now - marked, now, cssDir, fs, resolve)
    requires LeastFrom(Targets(root, cssDir, fs, resolve), now - marked, cssDir, fs, resolve)
    ensures c1 == c0 + ClassesOf(now - start, fs)
    ensures ClosedIn(now - start, now, cssDir, fs, resolve)
    ensures LeastFrom({root}, now - start, cssDir, fs, resolve)
  {
    ClassesAdded(start, root, now - marked, now, fs);
    assert now - start == {root} + (now - marked);
    RootFirst(root, now - marked, cssDir, fs, resolve);
  }

  /** At the end of the CSS walk, the files processed are the import closure
      of the files scanned. */
  lemma ClosureOfScan(read: set<string>, roots: set<string>, cssDir: string, fs: map<string, string>,
                      resolve: (string, string) -> string)
    requires roots <= read
    requires ClosedIn(read, read, cssDir, fs, resolve) && LeastFrom(roots, read, cssDir, fs, resolve)
    ensures ImportClosure(read, roots, cssDir, fs, resolve)
  {
    forall s: set<string> | roots <= s && ClosedIn(s, s, cssDir, fs, resolve)
      ensures read <= s
    {
      assert StepClosed(s, read, cssDir, fs, resolve);
      assert roots * read <= s;
    }
  }

  /** The state after following the imports of the first `i` lines of
      `file`: the files processed since `start` lie under the CSS directory,
      add exactly their classes, are reached from the file's imports and
      have their own imports processed, and every import of those lines is
      processed. */
  ghost predicate Followed(file: string, lines: seq<string>, i: nat, start: set<string>, now: set<string>,
                           c0: set<string>, c1: set<string>, cssDir: string, fs: map<string, string>,
                           resolve: (string, string) -> string) {
    && Reached(start, now, c0, c1, cssDir, fs)
    && |fs.Keys - now| <= |fs.Keys - start|
    && (forall k :: 0 <= k < i && k < |lines| ==> LineTargets(file, lines[k], cssDir, fs, resolve) <= now)
    && ClosedIn(now - start, now, cssDir, fs, resolve)
    && LeastFrom(TargetsOf(file, lines, cssDir, fs, resolve), now - start, cssDir, fs, resolve)
  }

  /** Following one more line keeps `Followed`. */
  lemma FollowedStep(file: string, lines: seq<string>, i: nat, start: set<string>, mid: set<string>, now: set<string>,
                     c0: set<string>, c1: set<string>, c2: set<string>, cssDir: string, fs: map<string, string>,
                     resolve: (string, string) -> string)
    requires i < |lines|
    requires Followed(file, lines, i, start, mid, c0, c1, cssDir, fs, resolve)
    requires mid <= now
    requires forall f :: f in now - mid ==> f in fs && StartsWith(f, cssDir)
    requires c2 == c1 + ClassesOf(now - mid, fs)
    requires LineTargets(file, lines[i], cssDir, fs, resolve) <= now
    requires ClosedIn(now - mid, now, cssDir, fs, resolve)
    requires LeastFrom(LineTargets(file, lines[i], cssDir, fs, resolve), now - mid, cssDir, fs, resolve)
    ensures Followed(file, lines, i + 1, start, now, c0, c2, cssDir, fs, resolve)
  {
    assert Reached(mid, now, c1, c2, cssDir, fs);
    ProcessedMore(start, mid, now, c0, c1, c2, cssDir, fs);
    LinesFollowed(file, lines, i, mid, now, cssDir, fs, resolve);
    TargetsExplored(file, lines, i, start, mid, now, cssDir, fs, resolve);
  }

  lemma LinesFollowed(file: string, lines: seq<string>, i: nat, mid: set<string>, now: set<string>,
                      cssDir: string, fs: map<string, string>, resolve: (string, string) -> string)
    requires i < |lines| && mid <= now
    requires forall k :: 0 <= k < i && k < |lines| ==> LineTargets(file, lines[k], cssDir, fs, resolve) <= mid
    requires LineTargets(file, lines[i], cssDir, fs, resolve) <= now
    ensures forall k :: 0 <= k < i + 1 && k < |lines| ==> LineTargets(file, lines[k], cssDir, fs, resolve) <= now
  {
  }

  lemma TargetsExplored(file: string, lines: seq<string>, i: nat, start: set<string>, mid: set<string>, now: set<string>,
                        cssDir: string, fs: map<string, string>, resolve: (string, string) -> string)
    requires i < |lines| && start <= mid <= now
    requires ClosedIn(mid - start, mid, cssDir, fs, resolve) && ClosedIn(now - mid, now, cssDir, fs, resolve)
    requires LeastFrom(TargetsOf(file, lines, cssDir, fs, resolve), mid - start, cssDir, fs, resolve)
    requires LeastFrom(LineTargets(file, lines[i], cssDir, fs, resolve), now - mid, cssDir, fs, resolve)
    ensures ClosedIn(now - start, now, cssDir, fs, resolve)
    ensures LeastFrom(TargetsOf(file, lines, cssDir, fs, resolve), now - start, cssDir, fs, resolve)
  {
    var targets := TargetsOf(file, lines, cssDir, fs, resolve);
    var line := LineTargets(file, lines[i], cssDir, fs, resolve);
    LineTargetsIn(file, lines, i, cssDir, fs, resolve);
    Explored(targets, line, start, mid, now, cssDir, fs, resolve);
    assert targets + line == targets;
  }

  /** After the last line, every import of the file is processed. */
  lemma FollowedAll(file: string, lines: seq<string>, start: set<string>, now: set<string>,
                    c0: set<string>, c1: set<string>, cssDir: string, fs: map<string, string>,
                    resolve: (string, string) -> string)
    requires Followed(file, lines, |lines|, start, now, c0, c1, cssDir, fs, resolve)
    ensures start <= now
    ensures forall f :: f in now - start ==> f in fs && StartsWith(f, cssDir)
    ensures c1 == c0 + ClassesOf(now - start, fs)
    ensures TargetsOf(file, lines, cssDir, fs, resolve) <= now
    ensures ClosedIn(now - start, now, cssDir, fs, resolve)
    ensures LeastFrom(TargetsOf(file, lines, cssDir, fs, resolve), now - start, cssDir, fs, resolve)
  {
  }

  /** `css_classes_set`, `php_classes_set` and `processed_files`. */
  class ClassScan {
    var phpClasses: set<string>
    var cssClasses: set<string>
    var processed: set<string>

    constructor ()
      ensures phpClasses == {} && cssClasses == {} && processed == {}
    {
      phpClasses, cssClasses, processed := {}, {}, {};
    }

    /** `extract_php_classes(filepath, php_classes_set)`: the classes of the
        file are added; a file that cannot be read adds nothing. */
    method ExtractPhpClasses(filepath: string, fs: map<string, string>)
      modifies this`phpClasses
      ensures phpClasses == old(phpClasses) + (if filepath in fs then PhpClassesOf(fs[filepath]) else {})
    {
      if filepath !in fs {
        return;
      }
      var values := PhpValues(fs[filepath], 0);
      ghost var start := phpClasses;
      for i := 0 to |values|
        invariant phpClasses == start + ValueClasses(values[..i])
      {
        ValueClassesStep(values, i);
        AddTokens(Words(Strip(values[i])));
      }
      assert values[..|values|] == values;
    }

    /** The inner loop of `extract_php_classes`: the tokens of one attribute
        value that look like class names, with escaped quotes removed. */
    method AddTokens(words: seq<string>)
      modifies this`phpClasses
      ensures phpClasses == old(phpClasses) + TokenClasses(words)
    {
      for j := 0 to |words|
        invariant phpClasses == old(phpClasses) + TokenClasses(words[..j])
      {
        assert words[..j + 1][..j] == words[..j];
        var pc := words[j];
        if pc != [] && Plausible(pc) {
          pc := Unescape(pc);
          if pc != [] {
            phpClasses := phpClasses + {pc};
          }
        }
      }
      assert words[..|words|] == words;
    }

    /** `extract_css_classes(filepath, css_classes_set, css_dir,
        processed_files)`: `cssDir` is the absolute CSS directory and
        `resolve(file, url)` the absolute, normalised path of `url` relative
        to the directory of `file`. Each path is processed once, which ends
        the recursion through cyclic imports: every call that recurses adds
        a file of `fs` to `processed`. The files newly processed are the
        file itself and the files reached from it by imports through files
        not processed before; each of them has all its imports processed. */
    method ExtractCssClasses(filepath: string, cssDir: string, fs: map<string, string>, resolve: (string, string) -> string)
      modifies this`cssClasses, this`processed
      decreases |fs.Keys - processed|, 1
      ensures filepath in old(processed) ==> processed == old(processed) && cssClasses == old(cssClasses)
      ensures filepath in processed && old(processed) <= processed
      ensures forall f :: f in processed - old(processed) - {filepath} ==> f in fs && StartsWith(f, cssDir)
      ensures cssClasses == old(cssClasses) + ClassesOf(processed - old(processed), fs)
      ensures ClosedIn(processed - old(processed), processed, cssDir, fs, resolve)
      ensures LeastFrom({filepath}, processed - old(processed), cssDir, fs, resolve)
    {
      if filepath in processed {
        assert processed - old(processed) == {};
        return;
      }
      processed := processed + {filepath};
      if filepath !in fs {
        assert processed - old(processed) == {filepath};
        return;
      }
      FewerLeft(fs.Keys, old(processed), filepath, processed);
      ghost var marked := processed;
      ReadCssFile(filepath, cssDir, fs, resolve);
      RootExplored(filepath, old(processed), marked, processed, old(cssClasses), cssClasses, cssDir, fs, resolve);
    }

    /** The rest of `extract_css_classes` once the file is marked processed:
        its lines are read, their imports followed, and then the selectors of
        the whole content added. */
    method ReadCssFile(filepath: string, cssDir: string, fs: map<string, string>, resolve: (string, string) -> string)
      requires filepath in fs && filepath in processed
      modifies this`cssClasses, this`processed
      decreases |fs.Keys - processed|, 4
      ensures old(processed) <= processed
      ensures forall f :: f in processed - old(processed) ==> f in fs && StartsWith(f, cssDir)
      ensures cssClasses == old(cssClasses) + ClassesOf(processed - old(processed), fs) + CssClassesOf(fs[filepath])
      ensures Targets(filepath, cssDir, fs, resolve) <= processed
      ensures ClosedIn(processed - old(processed), processed, cssDir, fs, resolve)
      ensures LeastFrom(Targets(filepath, cssDir, fs, resolve), processed - old(processed), cssDir, fs, resolve)
    {
      var lines := ReadLines(fs[filepath]);
      FollowImports(filepath, lines, cssDir, fs, resolve);
      var joined := Concat(lines);
      AddSelectors(CssNames(joined, 0));
    }

    /** The loop over the lines of a CSS file: the import of every line that
        resolves to a file under the CSS directory is processed. */
    method FollowImports(filepath: string, lines: seq<string>, cssDir: string, fs: map<string, string>,
                         resolve: (string, string) -> string)
      modifies this`cssClasses, this`processed
      decreases |fs.Keys - processed|, 3
      ensures old(processed) <= processed
      ensures forall f :: f in processed - old(processed) ==> f in fs && StartsWith(f, cssDir)
      ensures cssClasses == old(cssClasses) + ClassesOf(processed - old(processed), fs)
      ensures TargetsOf(filepath, lines, cssDir, fs, resolve) <= processed
      ensures ClosedIn(processed - old(processed), processed, cssDir, fs, resolve)
      ensures LeastFrom(TargetsOf(filepath, lines, cssDir, fs, resolve), processed - old(processed), cssDir, fs, resolve)
    {
      for i := 0 to |lines|
        invariant Followed(filepath, lines, i, old(processed), processed, old(cssClasses), cssClasses, cssDir, fs, resolve)
      {
        ghost var mid, midClasses := processed, cssClasses;
        FollowLine(filepath, lines[i], cssDir, fs, resolve);
        FollowedStep(filepath, lines, i, old(processed), mid, processed, old(cssClasses), midClasses, cssClasses,
                     cssDir, fs, resolve);
      }
      FollowedAll(filepath, lines, old(processed), processed, old(cssClasses), cssClasses, cssDir, fs, resolve);
    }

    /** One line of a CSS file: its import is followed when it resolves to a
        file under the CSS directory; otherwise nothing is processed. */
    method FollowLine(filepath: string, line: string, cssDir: string, fs: map<string, string>,
                      resolve: (string, string) -> string)
      modifies this`cssClasses, this`processed
      decreases |fs.Keys - processed|, 2
      ensures old(processed) <= processed
      ensures forall f :: f in processed - old(processed) ==> f in fs && StartsWith(f, cssDir)
      ensures cssClasses == old(cssClasses) + ClassesOf(processed - old(processed), fs)
      ensures LineTargets(filepath, line, cssDir, fs, resolve) <= processed
      ensures ImportTarget(filepath, line, cssDir, fs, resolve).None? ==> processed == old(processed)
      ensures ClosedIn(processed - old(processed), processed, cssDir, fs, resolve)
      ensures LeastFrom(LineTargets(filepath, line, cssDir, fs, resolve), processed - old(processed), cssDir, fs, resolve)
    {
      var found := SearchImport(line, 0);
      if found.Some? {
        var url := Strip(found.value);
        var imported := resolve(filepath, url);
        if StartsWith(imported, cssDir) && imported in fs {
          assert ImportTarget(filepath, line, cssDir, fs, resolve) == Some(imported);
          ExtractCssClasses(imported, cssDir, fs, resolve);
          return;
        }
      }
      assert processed - old(processed) == {};
    }

    /** The walk over the PHP directory. */
    method ScanPhpFiles(entries: seq<Entry>, exclude: seq<string>, fs: map<string, string>)
      modifies this`phpClasses
      ensures phpClasses == old(phpClasses) + PhpClassesIn(entries, exclude, fs)
    {
      for i := 0 to |entries|
        invariant phpClasses == old(phpClasses) + PhpClassesIn(entries[..i], exclude, fs)
      {
        assert entries[..i + 1][..i] == entries[..i];
        var e := entries[i];
        if (forall d :: 0 <= d < |e.dirs| ==> e.dirs[d] !in exclude) && EndsWith(e.name, ".php") {
          ExtractPhpClasses(e.path, fs);
        }
      }
      assert entries[..|entries|] == entries;
    }

    /** The walk over the CSS directory: every CSS file visited is
        processed, with the files its imports reach, and nothing else. */
    method ScanCssFiles(entries: seq<Entry>, exclude: seq<string>, cssDir: string, fs: map<string, string>,
                        resolve: (string, string) -> string)
      modifies this`cssClasses, this`processed
      ensures old(processed) <= processed
      ensures ScannedPaths(entries, exclude) <= processed
      ensures cssClasses == old(cssClasses) + ClassesOf(processed - old(processed), fs)
      ensures ClosedIn(processed - old(processed), processed, cssDir, fs, resolve)
      ensures LeastFrom(ScannedPaths(entries, exclude), processed - old(processed), cssDir, fs, resolve)
    {
      for i := 0 to |entries|
        invariant old(processed) <= processed
        invariant ScannedPaths(entries[..i], exclude) <= processed
        invariant cssClasses == old(cssClasses) + ClassesOf(processed - old(processed), fs)
        invariant ClosedIn(processed - old(processed), processed, cssDir, fs, resolve)
        invariant LeastFrom(ScannedPaths(entries[..i], exclude), processed - old(processed), cssDir, fs, resolve)
      {
        assert entries[..i + 1][..i] == entries[..i];
        var e := entries[i];
        if (forall d :: 0 <= d < |e.dirs| ==> e.dirs[d] !in exclude) && EndsWith(e.name, ".css") {
          ghost var mid := processed;
          ExtractCssClasses(e.path, cssDir, fs, resolve);
          ClassesOfUnion(mid - old(processed), processed - mid, fs);
          assert processed - old(processed) == (mid - old(processed)) + (processed - mid);
          Explored(ScannedPaths(entries[..i], exclude), {e.path}, old(processed), mid, processed, cssDir, fs, resolve);
        }
      }
      assert entries[..|entries|] == entries;
    }

    /** The last loop of `extract_css_classes`: every selector match adds
        its class. */
    method AddSelectors(names: seq<string>)
      modifies this`cssClasses
      ensures cssClasses == old(cssClasses) + set k | 0 <= k < |names| :: names[k]
    {
      for k := 0 to |names|
        invariant cssClasses == old(cssClasses) + set q | 0 <= q < k :: names[q]
      {
        cssClasses := cssClasses + {names[k]};
      }
    }
  }

  // ---------------------------------------------------------------------
  // main

  /** A file `os.walk` reports: its absolute path, the names of the
      directories between the scanned root and it, and its name. */
  datatype Entry = Entry(path: string, dirs: seq<string>, name: string)

  /** The file is visited: no directory on its way is excluded (they are
      pruned from the walk) and it has the wanted extension. */
  predicate Scanned(e: Entry, exclude: seq<string>, ext: string) {
    (forall i :: 0 <= i < |e.dirs| ==> e.dirs[i] !in exclude) && EndsWith(e.name, ext)
  }

  /** The paths of the CSS files visited. */
  function ScannedPaths(entries: seq<Entry>, exclude: seq<string>): set<string> {
    if entries == [] then {}
    else
      var e := entries[|entries| - 1];
      ScannedPaths(entries[..|entries| - 1], exclude) + (if Scanned(e, exclude, ".css") then {e.path} else {})
  }

  /** The default of `--exclude-dirs`. */
  const DefaultExclude: seq<string> := ["node_modules", ".git", ".svn", ".vscode", ".cursor"]

  datatype Report =
    | MissingDir(error: string)
    | Written(phpLines: seq<string>, cssLines: seq<string>)

  /** The classes of the PHP files visited. */
  function PhpClassesIn(entries: seq<Entry>, exclude: seq<string>, fs: map<string, string>): set<string> {
    if entries == [] then {}
    else
      var e := entries[|entries| - 1];
      PhpClassesIn(entries[..|entries| - 1], exclude, fs)
        + (if Scanned(e, exclude, ".php") && e.path in fs then PhpClassesOf(fs[e.path]) else {})
  }

  /** `main()`: the two directories must exist; the PHP files are scanned,
      then the CSS files (sharing one `processed_files` set), and the classes
      are written one per line in sorted order. */
  method AnalyzeClasses(phpDirExists: bool, cssDirExists: bool, phpEntries: seq<Entry>, cssEntries: seq<Entry>,
                        exclude: seq<string>, cssDir: string, fs: map<string, string>,
                        resolve: (string, string) -> string)
    returns (r: Report)
    ensures !phpDirExists ==> r.MissingDir?
    ensures phpDirExists && !cssDirExists ==> r.MissingDir?
    ensures phpDirExists && cssDirExists ==> r.Written?
    ensures r.Written? ==> StrictlySorted(r.phpLines) && StrictlySorted(r.cssLines)
    ensures r.Written? ==> forall c :: c in r.phpLines <==> c in PhpClassesIn(phpEntries, exclude, fs)
    ensures r.Written? ==> CssReport(r.cssLines, cssEntries, exclude, cssDir, fs, resolve)
  {
    if !phpDirExists {
      return MissingDir("Error: PHP directory not found");
    }
    if !cssDirExists {
      return MissingDir("Error: CSS directory not found");
    }
    var scan := new ClassScan();
    scan.ScanPhpFiles(phpEntries, exclude, fs);
    scan.ScanCssFiles(cssEntries, exclude, cssDir, fs, resolve);
    var phpLines := SortSet(scan.phpClasses);
    var cssLines := SortSet(scan.cssClasses);
    r := Written(phpLines, cssLines);
    assert scan.processed - {} == scan.processed;
    ClosureOfScan(scan.processed, ScannedPaths(cssEntries, exclude), cssDir, fs, resolve);
    CssReportOf(scan.processed, cssLines, cssEntries, exclude, cssDir, fs, resolve);
  }

  /** The CSS output lists exactly the classes of the import closure of the
      CSS files scanned. */
  ghost predicate CssReport(lines: seq<string>, entries: seq<Entry>, exclude: seq<string>, cssDir: string,
                            fs: map<string, string>, resolve: (string, string) -> string) {
    exists read: set<string> :: ReadCovers(read, lines, entries, exclude, cssDir, fs, resolve)
  }

  ghost predicate ReadCovers(read: set<string>, lines: seq<string>, entries: seq<Entry>, exclude: seq<string>,
                             cssDir: string, fs: map<string, string>, resolve: (string, string) -> string) {
    && ImportClosure(read, ScannedPaths(entries, exclude), cssDir, fs, resolve)
    && (forall c :: c in lines <==> c in ClassesOf(read, fs))
  }

  lemma CssReportOf(read: set<string>, lines: seq<string>, entries: seq<Entry>, exclude: seq<string>,
                    cssDir: string, fs: map<string, string>, resolve: (string, string) -> string)
    requires ImportClosure(read, ScannedPaths(entries, exclude), cssDir, fs, resolve)
    requires forall c :: c in lines <==> c in ClassesOf(read, fs)
    ensures CssReport(lines, entries, exclude, cssDir, fs, resolve)
  {
    assert ReadCovers(read, lines, entries, exclude, cssDir, fs, resolve);
  }

  /** The CSS output is determined by the walk and the files: two reports
      for the same scan list the same classes. */
  lemma CssReportDetermined(lines1: seq<string>, lines2: seq<string>, entries: seq<Entry>, exclude: seq<string>,
                            cssDir: string, fs: map<string, string>, resolve: (string, string) -> string)
    requires CssReport(lines1, entries, exclude, cssDir, fs, resolve)
    requires CssReport(lines2, entries, exclude, cssDir, fs, resolve)
    ensures forall c :: c in lines1 <==> c in lines2
  {
    var a :| ReadCovers(a, lines1, entries, exclude, cssDir, fs, resolve);
    var b :| ReadCovers(b, lines2, entries, exclude, cssDir, fs, resolve);
    ImportClosureUnique(a, b, ScannedPaths(entries, exclude), cssDir, fs, resolve);
  }
}
