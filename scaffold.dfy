/**
 * tools/scaffold_agent.py: turning a PascalCase agent name into a kebab-case
 * file name, and creating the agent's rule file from a template without
 * overwriting an existing one.
 */
module Scaffold {

  import opened Wrappers
  import opened Strings

  const AgentRulesDir := ".cursor/rules/agents"

  // ---------------------------------------------------------------------
  // sanitize_filename, one step per line of the pipeline.

  /** The length of the run of lower-case letters `s` starts with. */
  function LowerRun(s: string): (k: nat)
    ensures k <= |s|
    ensures forall i :: 0 <= i < k ==> IsLower(s[i])
    ensures k < |s| ==> !IsLower(s[k])
  {
    if s == [] || !IsLower(s[0]) then 0 else 1 + LowerRun(s[1..])
  }

  /** `re.sub(r'(.)([A-Z][a-z]+)', r'\1_\2', s)`: matches are searched from
      the left; `.` is any character but a newline and `[a-z]+` is greedy. */
  function SplitWords(s: string): string
    decreases |s|
  {
    if |s| < 3 then s
    else if s[0] != '\n' && IsUpper(s[1]) && IsLower(s[2]) then
      var e := 2 + LowerRun(s[2..]);
      [s[0]] + "_" + s[1..e] + SplitWords(s[e..])
    else [s[0]] + SplitWords(s[1..])
  }

  /** `re.sub(r'([a-z0-9])([A-Z])', r'\1_\2', s)` */
  function SplitHumps(s: string): string
    decreases |s|
  {
    if |s| < 2 then s
    else if (IsLower(s[0]) || IsDigit(s[0])) && IsUpper(s[1]) then [s[0], '_', s[1]] + SplitHumps(s[2..])
    else [s[0]] + SplitHumps(s[1..])
  }

  /** `.replace('_', '-').replace(' ', '-')` */
  function Hyphenate(s: string): (r: string)
    ensures |r| == |s|
  {
    seq(|s|, i requires 0 <= i < |s| => if s[i] == '_' || s[i] == ' ' then '-' else s[i])
  }

  predicate FileNameChar(c: char) { IsLower(c) || IsDigit(c) || c == '-' }

  /** `re.sub(r'[^a-z0-9-]', '', s)` */
  function KeepFileNameChars(s: string): string {
    if s == [] then []
    else (if FileNameChar(s[0]) then [s[0]] else []) + KeepFileNameChars(s[1..])
  }

  /** `re.sub(r'-+', '-', s)` */
  function CollapseHyphens(s: string): string {
    if s == [] then []
    else if |s| >= 2 && s[0] == '-' && s[1] == '-' then CollapseHyphens(s[1..])
    else [s[0]] + CollapseHyphens(s[1..])
  }

  function StripLeadingHyphens(s: string): string {
    if s != [] && s[0] == '-' then StripLeadingHyphens(s[1..]) else s
  }

  function StripTrailingHyphens(s: string): string {
    if s != [] && s[|s| - 1] == '-' then StripTrailingHyphens(s[..|s| - 1]) else s
  }

  /** `s.strip('-')` */
  function StripHyphens(s: string): string {
    StripTrailingHyphens(StripLeadingHyphens(s))
  }

  /** `sanitize_filename(name)` */
  function Sanitize(name: string): string {
    StripHyphens(CollapseHyphens(KeepFileNameChars(Hyphenate(Lower(SplitHumps(SplitWords(name)))))))
  }

  // The shape of a sanitised name.

  /** Only `[a-z0-9-]`, no hyphen at either end, no two hyphens in a row. */
  predicate KebabCase(s: string) {
    && (forall i :: 0 <= i < |s| ==> FileNameChar(s[i]))
    && (s != [] ==> s[0] != '-' && s[|s| - 1] != '-')
    && (forall i :: 0 <= i < |s| - 1 ==> !(s[i] == '-' && s[i + 1] == '-'))
  }

  predicate AllFileNameChars(s: string) { forall i :: 0 <= i < |s| ==> FileNameChar(s[i]) }

  predicate NoDoubleHyphen(s: string) { forall i :: 0 <= i < |s| - 1 ==> !(s[i] == '-' && s[i + 1] == '-') }

  lemma {:induction false} KeepGivesFileNameChars(s: string)
    ensures AllFileNameChars(KeepFileNameChars(s))
  {
    if s != [] {
      KeepGivesFileNameChars(s[1..]);
      var h := if FileNameChar(s[0]) then [s[0]] else [];
      assert KeepFileNameChars(s) == h + KeepFileNameChars(s[1..]);
    }
  }

  /** The first character survives collapsing. */
  lemma {:induction false} CollapseHead(s: string)
    ensures s == [] <==> CollapseHyphens(s) == []
    ensures s != [] ==> CollapseHyphens(s)[0] == s[0]
  {
    if s != [] && |s| >= 2 && s[0] == '-' && s[1] == '-' {
      CollapseHead(s[1..]);
    }
  }

  lemma {:induction false} CollapseShape(s: string)
    requires AllFileNameChars(s)
    ensures AllFileNameChars(CollapseHyphens(s)) && NoDoubleHyphen(CollapseHyphens(s))
  {
    if s != [] {
      assert AllFileNameChars(s[1..]) by { assert forall i :: 0 <= i < |s[1..]| ==> s[1..][i] == s[i + 1]; }
      CollapseShape(s[1..]);
      if !(|s| >= 2 && s[0] == '-' && s[1] == '-') {
        var t := CollapseHyphens(s[1..]);
        CollapseHead(s[1..]);
        assert CollapseHyphens(s) == [s[0]] + t;
        forall i | 0 <= i < |t| ensures !(([s[0]] + t)[i] == '-' && ([s[0]] + t)[i + 1] == '-') {
          if i > 0 { assert ([s[0]] + t)[i] == t[i - 1]; }
        }
      }
    }
  }

  lemma {:induction false} StripLeadingShape(s: string)
    requires AllFileNameChars(s) && NoDoubleHyphen(s)
    ensures var r := StripLeadingHyphens(s);
      AllFileNameChars(r) && NoDoubleHyphen(r) && (r != [] ==> r[0] != '-') && (r == [] || r[|r| - 1] == s[|s| - 1])
  {
    if s != [] && s[0] == '-' {
      assert forall i :: 0 <= i < |s[1..]| ==> s[1..][i] == s[i + 1];
      StripLeadingShape(s[1..]);
    }
  }

  lemma {:induction false} StripTrailingShape(s: string)
    requires AllFileNameChars(s) && NoDoubleHyphen(s) && (s != [] ==> s[0] != '-')
    ensures KebabCase(StripTrailingHyphens(s))
  {
    if s != [] && s[|s| - 1] == '-' {
      assert forall i :: 0 <= i < |s[..|s| - 1]| ==> s[..|s| - 1][i] == s[i];
      StripTrailingShape(s[..|s| - 1]);
    }
  }

  /** `sanitize_filename` always gives kebab case. */
  lemma SanitizeIsKebab(name: string)
    ensures KebabCase(Sanitize(name))
  {
    var k := KeepFileNameChars(Hyphenate(Lower(SplitHumps(SplitWords(name)))));
    KeepGivesFileNameChars(Hyphenate(Lower(SplitHumps(SplitWords(name)))));
    CollapseShape(k);
    StripLeadingShape(CollapseHyphens(k));
    StripTrailingShape(StripLeadingHyphens(CollapseHyphens(k)));
  }

  // Every step leaves kebab case alone, hence idempotence.

  predicate NoUpper(s: string) { forall i :: 0 <= i < |s| ==> !IsUpper(s[i]) }

  lemma {:induction false} SplitWordsNoUpper(s: string)
    requires NoUpper(s)
    ensures SplitWords(s) == s
  {
    if |s| >= 3 {
      assert NoUpper(s[1..]) by { assert forall i :: 0 <= i < |s[1..]| ==> s[1..][i] == s[i + 1]; }
      SplitWordsNoUpper(s[1..]);
      assert [s[0]] + s[1..] == s;
    }
  }

  lemma {:induction false} SplitHumpsNoUpper(s: string)
    requires NoUpper(s)
    ensures SplitHumps(s) == s
  {
    if |s| >= 2 {
      assert NoUpper(s[1..]) by { assert forall i :: 0 <= i < |s[1..]| ==> s[1..][i] == s[i + 1]; }
      SplitHumpsNoUpper(s[1..]);
      assert [s[0]] + s[1..] == s;
    }
  }

  lemma {:induction false} KeepAll(s: string)
    requires AllFileNameChars(s)
    ensures KeepFileNameChars(s) == s
  {
    if s != [] {
      assert AllFileNameChars(s[1..]) by { assert forall i :: 0 <= i < |s[1..]| ==> s[1..][i] == s[i + 1]; }
      KeepAll(s[1..]);
      assert [s[0]] + s[1..] == s;
    }
  }

  lemma {:induction false} CollapseNone(s: string)
    requires NoDoubleHyphen(s)
    ensures CollapseHyphens(s) == s
  {
    if s != [] {
      assert NoDoubleHyphen(s[1..]) by { assert forall i :: 0 <= i < |s[1..]| ==> s[1..][i] == s[i + 1]; }
      CollapseNone(s[1..]);
      assert [s[0]] + s[1..] == s;
    }
  }

  /** Kebab case passes through every step unchanged. */
  lemma KebabFixed(t: string)
    requires KebabCase(t)
    ensures Sanitize(t) == t
  {
    assert NoUpper(t) by {
      forall i | 0 <= i < |t| ensures !IsUpper(t[i]) { assert FileNameChar(t[i]); }
    }
    SplitWordsNoUpper(t);
    SplitHumpsNoUpper(t);
    assert Lower(t) == t;
    assert Hyphenate(t) == t;
    KebabTail(t);
  }

  /** The last three steps leave kebab case unchanged. */
  lemma KebabTail(t: string)
    requires KebabCase(t)
    ensures StripHyphens(CollapseHyphens(KeepFileNameChars(t))) == t
  {
    KeepAll(t);
    CollapseNone(t);
  }

  /** `sanitize_filename` applied to its own output changes nothing. */
  lemma SanitizeIdempotent(name: string)
    ensures Sanitize(Sanitize(name)) == Sanitize(name)
  {
    SanitizeIsKebab(name);
    KebabFixed(Sanitize(name));
  }

  // Letters and digits are kept, in order, lower-cased.

  /** The letters and digits of `s`, in order. */
  function Alnums(s: string): string {
    if s == [] then [] else (if IsAlnum(s[0]) then [s[0]] else []) + Alnums(s[1..])
  }

  lemma {:induction false} AlnumsConcat(a: string, b: string)
    ensures Alnums(a + b) == Alnums(a) + Alnums(b)
  {
    if a == [] {
      assert a + b == b;
    } else {
      assert (a + b)[1..] == a[1..] + b;
      AlnumsConcat(a[1..], b);
    }
  }

  lemma AlnumsOfLowerRun(s: string, e: nat)
    requires e <= |s| && forall i :: 0 <= i < e ==> IsLower(s[i])
    ensures Alnums(s[..e]) == s[..e]
    decreases e
  {
    if e > 0 {
      assert s[..e] == [s[0]] + s[1..][..e - 1];
      AlnumsOfLowerRun(s[1..], e - 1);
    }
  }

  lemma {:induction false} SplitWordsAlnums(s: string)
    ensures Alnums(SplitWords(s)) == Alnums(s)
    decreases |s|
  {
    if |s| >= 3 {
      if s[0] != '\n' && IsUpper(s[1]) && IsLower(s[2]) {
        var e := 2 + LowerRun(s[2..]);
        SplitWordsAlnums(s[e..]);
        AlnumsConcat([s[0]] + "_", s[1..e]);
        AlnumsConcat([s[0]] + "_" + s[1..e], SplitWords(s[e..]));
        AlnumsConcat([s[0]], "_");
        AlnumsConcat([s[0]], s[1..e]);
        AlnumsConcat([s[0]] + s[1..e], s[e..]);
        assert s == [s[0]] + s[1..e] + s[e..];
        assert [s[0]][1..] == [];
      } else {
        SplitWordsAlnums(s[1..]);
        AlnumsConcat([s[0]], SplitWords(s[1..]));
        assert [s[0]][1..] == [];
      }
    }
  }

  lemma {:induction false} SplitHumpsAlnums(s: string)
    ensures Alnums(SplitHumps(s)) == Alnums(s)
    decreases |s|
  {
    if |s| >= 2 {
      if (IsLower(s[0]) || IsDigit(s[0])) && IsUpper(s[1]) {
        SplitHumpsAlnums(s[2..]);
        AlnumsConcat([s[0], '_', s[1]], SplitHumps(s[2..]));
        assert [s[0], '_', s[1]][1..] == ['_', s[1]];
        assert ['_', s[1]][1..] == [s[1]];
        assert [s[1]][1..] == [];
        assert Alnums([s[1]]) == [s[1]];
        assert Alnums(['_', s[1]]) == Alnums([s[1]]);
        assert Alnums([s[0], '_', s[1]]) == [s[0]] + Alnums(['_', s[1]]);
        assert s[1..][1..] == s[2..];
        assert Alnums(s[1..]) == [s[1]] + Alnums(s[2..]);
        assert Alnums(s) == [s[0]] + Alnums(s[1..]);
      } else {
        SplitHumpsAlnums(s[1..]);
        AlnumsConcat([s[0]], SplitHumps(s[1..]));
        assert [s[0]][1..] == [];
      }
    }
  }

  lemma {:induction false} LowerAlnums(s: string)
    ensures Alnums(Lower(s)) == Lower(Alnums(s))
  {
    if s != [] {
      assert Lower(s)[1..] == Lower(s[1..]);
      LowerAlnums(s[1..]);
      var h := if IsAlnum(s[0]) then [s[0]] else [];
      assert Alnums(s) == h + Alnums(s[1..]);
      assert Lower(h + Alnums(s[1..])) == Lower(h) + Lower(Alnums(s[1..]));
    }
  }

  lemma {:induction false} HyphenateAlnums(s: string)
    ensures Alnums(Hyphenate(s)) == Alnums(s)
  {
    if s != [] {
      assert Hyphenate(s)[1..] == Hyphenate(s[1..]);
      HyphenateAlnums(s[1..]);
    }
  }

  lemma {:induction false} KeepAlnums(s: string)
    requires NoUpper(s)
    ensures Alnums(KeepFileNameChars(s)) == Alnums(s)
  {
    if s != [] {
      assert NoUpper(s[1..]) by { assert forall i :: 0 <= i < |s[1..]| ==> s[1..][i] == s[i + 1]; }
      KeepAlnums(s[1..]);
      var h := if FileNameChar(s[0]) then [s[0]] else [];
      AlnumsConcat(h, KeepFileNameChars(s[1..]));
      assert h == [] || h[1..] == [];
    }
  }

  lemma {:induction false} CollapseAlnums(s: string)
    ensures Alnums(CollapseHyphens(s)) == Alnums(s)
  {
    if s != [] {
      CollapseAlnums(s[1..]);
      if !(|s| >= 2 && s[0] == '-' && s[1] == '-') {
        AlnumsConcat([s[0]], CollapseHyphens(s[1..]));
        assert [s[0]][1..] == [];
      }
    }
  }

  lemma {:induction false} StripAlnums(s: string)
    ensures Alnums(StripHyphens(s)) == Alnums(s)
  {
    StripLeadingAlnums(s);
    StripTrailingAlnums(StripLeadingHyphens(s));
  }

  lemma {:induction false} StripLeadingAlnums(s: string)
    ensures Alnums(StripLeadingHyphens(s)) == Alnums(s)
  {
    if s != [] && s[0] == '-' { StripLeadingAlnums(s[1..]); }
  }

  lemma {:induction false} StripTrailingAlnums(s: string)
    ensures Alnums(StripTrailingHyphens(s)) == Alnums(s)
  {
    if s != [] && s[|s| - 1] == '-' {
      StripTrailingAlnums(s[..|s| - 1]);
      AlnumsConcat(s[..|s| - 1], ['-']);
      assert s[..|s| - 1] + ['-'] == s;
      assert ['-'][1..] == [];
    }
  }

  lemma LowerHasNoUpper(s: string)
    ensures NoUpper(Lower(s))
  {
  }

  /** `sanitize_filename` keeps exactly the letters and digits of the name,
      in order and lower-cased; everything else it drops or turns into
      single hyphens between them. */
  lemma SanitizeKeepsAlnums(name: string)
    ensures Alnums(Sanitize(name)) == Lower(Alnums(name))
  {
    var a := SplitWords(name);
    var b := SplitHumps(a);
    var c := Lower(b);
    var d := Hyphenate(c);
    var e := KeepFileNameChars(d);
    var f := CollapseHyphens(e);
    SplitWordsAlnums(name);
    SplitHumpsAlnums(a);
    LowerAlnums(b);
    HyphenateAlnums(c);
    LowerHasNoUpper(b);
    assert NoUpper(d);
    KeepAlnums(d);
    CollapseAlnums(e);
    StripAlnums(f);
  }

  // ---------------------------------------------------------------------
  // Validation: `re.match(r'^[A-Z][a-zA-Z0-9]*Agent$', name)`.

  /** The name without the single newline `$` may match before. */
  function Body(name: string): string {
    if name != [] && name[|name| - 1] == '\n' then name[..|name| - 1] else name
  }

  predicate PascalAgent(t: string) {
    && |t| >= 6
    && IsUpper(t[0])
    && EndsWith(t, "Agent")
    && (forall i :: 1 <= i < |t| - 5 ==> IsAlnum(t[i]))
  }

  /** The name passes the check of line 59. */
  predicate ValidName(name: string) {
    name != [] && PascalAgent(Body(name))
  }

  /** A valid name has a letter, so its file name is never empty: the
      "Could not generate a valid filename" branch is unreachable. */
  lemma ValidNameHasFileName(name: string)
    requires ValidName(name)
    ensures Sanitize(name) != []
  {
    var t := Body(name);
    SanitizeKeepsAlnums(name);
    AlnumsOfPrefix(name, t);
    assert Alnums(t) != [] by {
      assert t == [t[0]] + t[1..];
      AlnumsConcat([t[0]], t[1..]);
    }
  }

  /** Alnums of a prefix is a prefix of Alnums. */
  lemma AlnumsOfPrefix(name: string, t: string)
    requires t == Body(name)
    ensures |Alnums(t)| <= |Alnums(name)|
  {
    if t != name {
      assert name == t + [name[|name| - 1]];
      AlnumsConcat(t, [name[|name| - 1]]);
    }
  }

  // ---------------------------------------------------------------------
  // The rule file.

  /** The first line of the rule file. */
  function RuleTitle(name: string): string {
    "# Agent Rule: " + name + "\n"
  }

  /** The template text around the role description's mention of the name. */
  const RoleIntro: string :=
    "\n" +
    "## Role Description\n" +
    "(TODO: Describe the primary purpose and responsibilities of the "

  const TemplateRest: string := ".)\n" +
    "\n" +
    "## Core Tasks\n" +
    "- (TODO: List the specific actions this agent performs, e.g., Analyze X, Generate Y, Refactor Z.)\n" +
    "- ...\n" +
    "\n" +
    "## Input\n" +
    "- `handoffMessage`: (String) Instructions from the previous agent.\n" +
    "- `observations`: (List) Data/findings from previous agents (via request log).\n" +
    "- (TODO: List any other specific inputs required, e.g., file paths, configuration data).\n" +
    "\n" +
    "## Output\n" +
    "- `observations`: (List) Key findings, analysis results, or outcomes of actions taken.\n" +
    "- `nextAgent`: (String) The role of the agent to hand off to (e.g., \"BuilderAgent\", \"AuditAgent\", \"Overmind\", null).\n" +
    "- `handoffMessage`: (String) Clear instructions for the `nextAgent`.\n" +
    "- (TODO: Specify any files created/modified or other outputs).\n" +
    "\n" +
    "## Tools Used\n" +
    "- (TODO: List the primary tools this agent will utilize, e.g., `read_file`, `edit_file`, `custom_tool.py`).\n" +
    "- ...\n" +
    "\n" +
    "## Handoff Conditions\n" +
    "- **To `BuilderAgent`:** When ... (e.g., research is complete).\n" +
    "- **To `AuditAgent`:** When ... (e.g., implementation is complete).\n" +
    "- **To `Overmind`:** When ... (e.g., task is fully complete or requires re-planning).\n" +
    "- **To `null` (Halt):** When ... (e.g., critical error or request completion).\n" +
    "\n" +
    "## Notes\n" +
    "- (TODO: Add any specific constraints, edge cases, or important considerations for this agent).\n"

  /** The sections of the rule file after its title. */
  function RuleSections(name: string): string {
    RoleIntro + name + TemplateRest
  }

  /** `generate_rule_content(agent_name)`: the template with the name in its
      title and its role description. */
  function RuleContent(name: string): string {
    RuleTitle(name) + RuleSections(name)
  }

  /** The rule file starts with a title line naming the agent. */
  lemma RuleContentTitle(name: string)
    ensures StartsWith(RuleContent(name), "# Agent Rule: " + name + "\n")
  {
    PrefixOfConcat(RuleTitle(name), RuleSections(name));
  }

  /** `os.path.join(AGENT_RULES_DIR, f"{basename}.mdc")` */
  function RulePath(basename: string): string {
    AgentRulesDir + "/" + basename + ".mdc"
  }

  datatype Outcome =
    | Created(message: string, filepath: string)
    | Rejected(error: string)

  /** `scaffold_agent(name)` on a filesystem given as a map from existing paths
      to contents: `makedirsError` and `writeError` are the messages of the
      exceptions `os.makedirs` and the write raise, if they do. Returns the
      result and the filesystem afterwards. */
  method ScaffoldAgent(name: string, files: map<string, string>,
                       makedirsError: Option<string>, writeError: Option<string>)
    returns (r: Outcome, after: map<string, string>)
    ensures !ValidName(name) ==>
      r == Rejected("Invalid agent name. Must be PascalCase ending in 'Agent' (e.g., 'MyNewAgent').") && after == files
    ensures r.Created? ==>
      ValidName(name) && r.filepath == RulePath(Sanitize(name)) && r.filepath !in files &&
      after == files[r.filepath := RuleContent(name)] &&
      r.message == "Agent rule file created: " + r.filepath
    ensures r.Rejected? ==> after == files
    ensures ValidName(name) && RulePath(Sanitize(name)) in files ==>
      after == files && r.Rejected? &&
      (makedirsError.None? ==> r.error == "Rule file already exists: " + RulePath(Sanitize(name)))
    ensures r.Created? <==>
      ValidName(name) && RulePath(Sanitize(name)) !in files && makedirsError.None? && writeError.None?
  {
    after := files;
    if name == [] || !PascalAgent(Body(name)) {
      return Rejected("Invalid agent name. Must be PascalCase ending in 'Agent' (e.g., 'MyNewAgent')."), after;
    }
    var basename := Sanitize(name);
    if basename == [] {
      ValidNameHasFileName(name);
      assert false;
      return Rejected("Could not generate a valid filename from agent name."), after;
    }
    var filepath := RulePath(basename);
    r, after := WriteRuleFile(filepath, RuleContent(name), files, makedirsError, writeError);
  }

  /** The `try` block of `scaffold_agent`: create the directory, refuse an
      existing file, write `content`. */
  method WriteRuleFile(filepath: string, content: string, files: map<string, string>,
                       makedirsError: Option<string>, writeError: Option<string>)
    returns (r: Outcome, after: map<string, string>)
    ensures r.Created? <==> filepath !in files && makedirsError.None? && writeError.None?
    ensures r.Created? ==>
      r.filepath == filepath && after == files[filepath := content] && r.message == "Agent rule file created: " + filepath
    ensures r.Rejected? ==> after == files
    ensures filepath in files ==> r.Rejected? && (makedirsError.None? ==> r.error == "Rule file already exists: " + filepath)
    ensures makedirsError.Some? ==> r == Rejected("Failed to create rule file: " + makedirsError.value)
  {
    after := files;
    if makedirsError.Some? {
      return Rejected("Failed to create rule file: " + makedirsError.value), after;
    }
    if filepath in files {
      return Rejected("Rule file already exists: " + filepath), after;
    }
    if writeError.Some? {
      return Rejected("Failed to create rule file: " + writeError.value), after;
    }
    after := files[filepath := content];
    r := Created("Agent rule file created: " + filepath, filepath);
  }

  /** The exit status of the script: 0 exactly when the file was created. */
  function ExitStatus(r: Outcome): (code: int)
    ensures code == 0 <==> r.Created?
    ensures code == 0 || code == 1
  {
    if r.Created? then 0 else 1
  }

  // ---------------------------------------------------------------------
  // The example of the docstring.

  lemma ExampleSplitWords()
    ensures SplitWords("MyNewAgent") == "My_NewAgent"
  {
    assert "MyNewAgent" == ['M'] + "yNewAgent";
    assert "My_NewAgent" == ['M'] + "y_NewAgent";
    WordsKeep('M', "yNewAgent");
    ExampleSplitNew();
  }

  lemma ExampleSplitNew()
    ensures SplitWords("yNewAgent") == "y_NewAgent"
  {
    var s := "yNewAgent";
    assert s[2..] == "ewAgent" && s[1..4] == "New" && s[4..] == "Agent";
    assert "y_NewAgent" == ['y'] + "_" + "New" + "Agent";
    assert LowerRun("ewAgent") == 2 by {
      assert "ewAgent"[1..] == "wAgent" && "wAgent"[1..] == "Agent";
    }
    WordsCutAt(s, 4);
    ExampleSplitAgent();
  }

  lemma ExampleSplitAgent()
    ensures SplitWords("Agent") == "Agent"
  {
    assert "Agent" == ['A'] + "gent";
    WordsKeep('A', "gent");
    NoUpperExample();
    SplitWordsNoUpper("gent");
  }

  /** No match of `(.)([A-Z][a-z]+)` starts at the first character. */
  lemma WordsKeep(c: char, rest: string)
    requires |rest| >= 2 && !(c != '\n' && IsUpper(rest[0]) && IsLower(rest[1]))
    ensures SplitWords([c] + rest) == [c] + SplitWords(rest)
  {
    assert ([c] + rest)[1..] == rest;
  }

  /** One step of `SplitWords` at a match that ends at `e`. */
  lemma WordsCutAt(s: string, e: nat)
    requires |s| >= 3 && s[0] != '\n' && IsUpper(s[1]) && IsLower(s[2]) && e == 2 + LowerRun(s[2..])
    ensures SplitWords(s) == [s[0]] + "_" + s[1..e] + SplitWords(s[e..])
  {
  }

  lemma NoUpperExample()
    ensures NoUpper("gent")
  {
  }

  lemma ExampleSplitHumps()
    ensures SplitHumps("My_NewAgent") == "My_New_Agent"
  {
    assert "My_NewAgent" == ['M'] + (['y'] + (['_'] + (['N'] + (['e'] + (['w', 'A'] + "gent")))));
    assert "My_New_Agent" == ['M'] + (['y'] + (['_'] + (['N'] + (['e'] + (['w', '_', 'A'] + "gent")))));
    HumpsKeep('M', "y_NewAgent");
    HumpsKeep('y', "_NewAgent");
    HumpsKeep('_', "NewAgent");
    HumpsKeep('N', "ewAgent");
    HumpsKeep('e', "wAgent");
    HumpsCut('w', 'A', "gent");
    NoUpperExample();
    SplitHumpsNoUpper("gent");
  }

  /** No match of `([a-z0-9])([A-Z])` starts at the first character. */
  lemma HumpsKeep(c: char, rest: string)
    requires |rest| >= 1 && !((IsLower(c) || IsDigit(c)) && IsUpper(rest[0]))
    ensures SplitHumps([c] + rest) == [c] + SplitHumps(rest)
  {
    assert ([c] + rest)[1..] == rest;
  }

  /** A match of `([a-z0-9])([A-Z])` at the first character. */
  lemma HumpsCut(a: char, b: char, rest: string)
    requires (IsLower(a) || IsDigit(a)) && IsUpper(b)
    ensures SplitHumps([a, b] + rest) == [a, '_', b] + SplitHumps(rest)
  {
    assert ([a, b] + rest)[2..] == rest;
  }

  lemma LowerConcat(a: string, b: string)
    ensures Lower(a + b) == Lower(a) + Lower(b)
  {
  }

  lemma HyphenateConcat(a: string, b: string)
    ensures Hyphenate(a + b) == Hyphenate(a) + Hyphenate(b)
  {
  }

  lemma LowerCapital(c: char, rest: string)
    requires IsUpper(c) && NoUpper(rest)
    ensures Lower([c] + rest) == [LowerChar(c)] + rest
  {
    LowerConcat([c], rest);
  }

  lemma LowerPieces()
    ensures Lower("My_") == "my_" && Lower("New_") == "new_" && Lower("Agent") == "agent"
  {
    LowerCapital('M', "y_");
    assert "My_" == ['M'] + "y_";
    LowerCapital('N', "ew_");
    assert "New_" == ['N'] + "ew_";
    LowerCapital('A', "gent");
    assert "Agent" == ['A'] + "gent";
  }

  lemma HyphenOne(a: string)
    requires a != [] && a[|a| - 1] == '_' && forall i :: 0 <= i < |a| - 1 ==> a[i] != '_' && a[i] != ' '
    ensures Hyphenate(a) == a[..|a| - 1] + "-"
  {
  }

  lemma HyphenPieces()
    ensures Hyphenate("my_") == "my-" && Hyphenate("new_") == "new-" && Hyphenate("agent") == "agent"
  {
    HyphenOne("my_");
    HyphenOne("new_");
  }

  lemma KebabExample()
    ensures KebabCase("my-new-agent")
  {
  }

  /** `MyNewAgent` becomes `my-new-agent`. */
  lemma ExampleSanitize()
    ensures Sanitize("MyNewAgent") == "my-new-agent"
  {
    ExampleSplitWords();
    ExampleSplitHumps();
    ExampleLowerHyphen();
    KebabExample();
    KebabTail("my-new-agent");
  }

  lemma ExampleLowerHyphen()
    ensures Hyphenate(Lower("My_New_Agent")) == "my-new-agent"
  {
    var c := Lower("My_New_Agent");
    LowerConcat("My_", "New_Agent");
    LowerConcat("New_", "Agent");
    assert "My_" + ("New_" + "Agent") == "My_New_Agent";
    LowerPieces();
    assert c == "my_" + ("new_" + "agent");
    HyphenateConcat("my_", "new_" + "agent");
    HyphenateConcat("new_", "agent");
    HyphenPieces();
    assert Hyphenate(c) == "my-" + ("new-" + "agent");
  }
}
