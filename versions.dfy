/**
 * rules/tools/check_versions.py: the version string reported for a tool,
 * given the outcome of its version command, and the results dict of the
 * script. Running the command is a parameter `run`, from the command to
 * its outcome.
 */
module Versions {

  import opened Wrappers
  import opened Strings
  import opened Regex
  import opened Subprocess

  /** `TOOL_COMMANDS` */
  const ToolCommands: map<string, seq<string>> := map[
    "python" := ["python", "--version"],
    "node" := ["node", "--version"],
    "git" := ["git", "--version"],
    "npm" := ["npm", "--version"],
    "yarn" := ["yarn", "--version"],
    "docker" := ["docker", "--version"],
    "java" := ["java", "-version"],
    "pip" := ["pip", "--version"],
    "python3" := ["python3", "--version"]]

  const DefaultTools: seq<string> := ["python", "node", "git"]

  const UnknownTool := "unknown tool"
  const NotFound := "not found"
  const Unrecognized := "version format unrecognized"
  const NoOutput := "not found (no output)"

  /** The text inspected: stdout followed by stderr. */
  function Output(proc: Proc): string
    requires proc.Exited?
  {
    proc.stdout + proc.stderr
  }

  /** The classification of a known tool's command outcome. */
  function Classify(proc: Proc): (version: string)
  {
    match proc
    case NotFound => NotFound
    case Exited(code, _, _) =>
      var output := Output(proc);
      if code != 0 && IsBlank(output) then NotFound
      else match SearchToolVersion(output)
        case Some(v) => v
        case None => if !IsBlank(output) then Unrecognized else NoOutput
  }

  /** `get_tool_version(tool_name)`: an unknown tool is reported without
      running anything. */
  function ToolVersion(tool: string, run: seq<string> -> Proc): (version: string)
    ensures tool !in ToolCommands ==> version == UnknownTool
  {
    if tool !in ToolCommands then UnknownTool else Classify(run(ToolCommands[tool]))
  }

  /** The four fallbacks cannot be mistaken for a version: they do not start
      with a digit. */
  predicate IsVersion(v: string) { v != [] && IsDigit(v[0]) }

  /** Each outcome falls in exactly one class, by these rules:
      "not found" for a missing command or a failure without output; a
      version when the output holds `\d+\.\d+`; "version format
      unrecognized" for other non-blank output; "not found (no output)"
      for a blank success. */
  lemma ClassifyCases(proc: Proc)
    ensures Classify(proc) == NotFound <==>
      proc.NotFound? || (proc.code != 0 && IsBlank(Output(proc)))
    ensures IsVersion(Classify(proc)) <==>
      proc.Exited? && !(proc.code != 0 && IsBlank(Output(proc))) && SearchToolVersion(Output(proc)).Some?
    ensures IsVersion(Classify(proc)) ==> Classify(proc) == SearchToolVersion(Output(proc)).value
    ensures Classify(proc) == Unrecognized <==>
      proc.Exited? && !IsBlank(Output(proc)) && SearchToolVersion(Output(proc)).None?
    ensures Classify(proc) == NoOutput <==>
      proc.Exited? && proc.code == 0 && IsBlank(Output(proc)) && SearchToolVersion(Output(proc)).None?
    ensures proc.Exited? && proc.code == 0 && IsBlank(Output(proc)) ==> Classify(proc) == NoOutput
  {
    if proc.Exited? {
      if IsBlank(Output(proc)) { BlankHasNoVersion(Output(proc)); }
      ToolVersionShape(Output(proc));
      assert !IsVersion(NotFound) && !IsVersion(Unrecognized) && !IsVersion(NoOutput);
      assert NotFound != Unrecognized && NotFound != NoOutput && Unrecognized != NoOutput;
    }
  }

  /** Blank output holds no version. */
  lemma BlankHasNoVersion(s: string)
    requires IsBlank(s)
    ensures SearchToolVersion(s).None?
  {
  }

  /** The keys of the results dict, in the order they were first set. */
  function FirstAppearances(ks: seq<string>): (r: seq<string>)
    ensures forall k :: k in r <==> k in ks
    ensures forall i, j :: 0 <= i < j < |r| ==> r[i] != r[j]
  {
    if ks == [] then []
    else
      var init := FirstAppearances(ks[..|ks| - 1]);
      var k := ks[|ks| - 1];
      assert forall x :: x in ks <==> x in ks[..|ks| - 1] || x == k;
      if k in init then init else init + [k]
  }

  lemma FirstAppearancesStep(ks: seq<string>, i: nat)
    requires i < |ks|
    ensures FirstAppearances(ks[..i + 1]) ==
      if ks[i] in FirstAppearances(ks[..i]) then FirstAppearances(ks[..i]) else FirstAppearances(ks[..i]) + [ks[i]]
  {
    assert ks[..i + 1][..i] == ks[..i];
  }

  function Lowered(tools: seq<string>): (r: seq<string>)
    ensures |r| == |tools|
  {
    seq(|tools|, i requires 0 <= i < |tools| => Lower(tools[i]))
  }

  function ToolsToCheck(args: seq<string>): seq<string> {
    if args == [] then DefaultTools else args
  }

  /** The `__main__` block: every tool named (python, node and git when
      none is), lower-cased, gets its version under its lower-cased name;
      `keys` are the dict's keys in insertion order. */
  method CheckVersions(args: seq<string>, run: seq<string> -> Proc) returns (keys: seq<string>, results: map<string, string>)
    ensures keys == FirstAppearances(Lowered(ToolsToCheck(args)))
    ensures forall k :: k in results <==> k in keys
    ensures forall k :: k in results ==> results[k] == ToolVersion(k, run)
  {
    var tools := ToolsToCheck(args);
    keys := [];
    results := map[];
    for i := 0 to |tools|
      invariant keys == FirstAppearances(Lowered(tools)[..i])
      invariant forall k :: k in results <==> k in keys
      invariant forall k :: k in results ==> results[k] == ToolVersion(k, run)
    {
      FirstAppearancesStep(Lowered(tools), i);
      var toolLower := Lower(tools[i]);
      if toolLower !in results {
        keys := keys + [toolLower];
      }
      results := results[toolLower := ToolVersion(toolLower, run)];
    }
    assert Lowered(tools)[..|tools|] == Lowered(tools);
  }

  /** With no arguments, exactly python, node and git are checked. */
  lemma DefaultsChecked()
    ensures FirstAppearances(Lowered(ToolsToCheck([]))) == ["python", "node", "git"]
  {
    assert Lower("python") == "python" && Lower("node") == "node" && Lower("git") == "git";
    var l := Lowered(DefaultTools);
    assert l == ["python", "node", "git"];
    assert FirstAppearances(l[..0]) == [];
    FirstAppearancesStep(l, 0);
    FirstAppearancesStep(l, 1);
    FirstAppearancesStep(l, 2);
    assert l[..3] == l;
  }
}
