/**
 * tools/verify_environment.py: whether each configured tool is on the PATH,
 * which version it reports, and whether every critical tool was found.
 * `shutil.which` and running the version command are parameters: `which`
 * gives the path the executable was found at, `run` the outcome of a
 * command.
 */
module Environment {

  import opened Wrappers
  import opened Strings
  import opened Regex
  import opened Subprocess

  /** `TOOLS_TO_CHECK`, in its key order; `python` is `sys.executable`. */
  function ToolsToCheck(python: string): (tools: seq<(string, seq<string>)>)
    ensures |tools| == 6
    ensures forall i :: 0 <= i < |tools| ==> |tools[i].1| >= 1
  {
    [("git", ["git", "--version"]),
     ("python", [python, "--version"]),
     ("pip", [python, "-m", "pip", "--version"]),
     ("npm", ["npm", "--version"]),
     ("node", ["node", "--version"]),
     ("pip-audit", ["pip-audit", "--version"])]
  }

  /** The tools whose absence fails the check. */
  predicate Critical(tool: string) { tool == "git" || tool == "python" || tool == "pip" }

  /** One `info` record. */
  datatype ToolInfo = ToolInfo(name: string, found: bool, path: Option<string>, version: Option<string>, error: Option<string>)

  /** The inspected text: the stripped stdout, or the stripped stderr when
      stdout is blank. */
  function Output(stdout: string, stderr: string): string {
    if Strip(stdout) != [] then Strip(stdout) else Strip(stderr)
  }

  /** What `get_tool_info(tool_name, version_command)` reports: `located`
      is what `shutil.which` returned for the executable, `proc` the outcome
      of the version command. */
  function ToolInfoOf(name: string, located: Option<string>, proc: Proc): ToolInfo {
    if located.None? || located.value == [] then ToolInfo(name, false, None, None, Some("Not found in PATH."))
    else match proc
      case NotFound => ToolInfo(name, false, None, None, Some("Command not found despite initial check."))
      case Exited(code, stdout, stderr) =>
        var out := Output(stdout, stderr);
        if code == 0 && out != [] then
          ToolInfo(name, true, located, Some(match SearchDottedVersion(out) case Some(v) => v case None => out), None)
        else if out != [] then
          ToolInfo(name, true, located, None, Some("Command ran, but exited " + IntToString(code) + ". Output: " + Take(out, 100)))
        else
          ToolInfo(name, true, located, None, Some("Command failed with exit code " + IntToString(code) + ". No output."))
  }

  /** A tool missing from the PATH is reported as not found whatever its
      command would have done, so the command is never run; a tool on the
      PATH stays found unless its command cannot be started; a version is
      recorded only for a successful run with output, and an error exactly
      when there is no version. */
  lemma ToolInfoCases(name: string, located: Option<string>, proc: Proc)
    ensures var info := ToolInfoOf(name, located, proc);
      && info.name == name
      && (located.None? || located.value == [] ==>
            forall p :: ToolInfoOf(name, located, p) == ToolInfo(name, false, None, None, Some("Not found in PATH.")))
      && (info.found <==> located.Some? && located.value != [] && proc.Exited?)
      && (info.found ==> info.path == located)
      && (info.version.Some? <==> info.found && proc.code == 0 && Output(proc.stdout, proc.stderr) != [])
      && (info.error.Some? <==> info.version.None?)
      && (info.found && proc.code != 0 && Output(proc.stdout, proc.stderr) != [] ==>
            info.error == Some("Command ran, but exited " + IntToString(proc.code) + ". Output: "
                               + Output(proc.stdout, proc.stderr)[..|Take(Output(proc.stdout, proc.stderr), 100)|]))
  {
  }

  /** `get_tool_info(tool_name, version_command)`, filling the record step
      by step. */
  method GetToolInfo(name: string, located: Option<string>, proc: Proc) returns (info: ToolInfo)
    ensures info == ToolInfoOf(name, located, proc)
  {
    info := ToolInfo(name, false, None, None, None);
    if located.None? || located.value == [] {
      info := info.(error := Some("Not found in PATH."));
      return;
    }
    info := info.(found := true, path := located);
    match proc
    case NotFound =>
      info := info.(found := false, path := None, error := Some("Command not found despite initial check."));
    case Exited(code, stdout, stderr) =>
      var out := Strip(stdout);
      var output := if out != [] then out else Strip(stderr);
      assert output == Output(stdout, stderr);
      if code == 0 && output != [] {
        var m := SearchDottedVersion(output);
        if m.Some? {
          info := info.(version := m);
        } else {
          info := info.(version := Some(output));
        }
      } else if output != [] {
        info := info.(error := Some("Command ran, but exited " + IntToString(code) + ". Output: " + Take(output, 100)));
      } else {
        info := info.(error := Some("Command failed with exit code " + IntToString(code) + ". No output."));
      }
  }

  /** The version recorded for a tool: either a dotted number taken from
      the output (digits and dots, starting and ending with a digit), or the
      whole output when it holds no `\d+\.\d+`. */
  lemma VersionShape(out: string)
    ensures var v := match SearchDottedVersion(out) case Some(v) => v case None => out;
      (SearchDottedVersion(out).Some? ==>
         |v| >= 3 && IsDigit(v[0]) && IsDigit(v[|v| - 1]) && '.' in v &&
         forall i :: 0 <= i < |v| ==> IsDottedChar(v[i]))
      && (SearchDottedVersion(out).None? ==> v == out && forall i :: 0 <= i <= |out| ==> !MatchesAt(out, i))
  {
    DottedVersionShape(out);
  }

  /** `verify_all_tools()`: one record per configured tool, in configuration
      order; `allCriticalFound` is lowered when git, python or pip is not
      found. */
  method VerifyAllTools(tools: seq<(string, seq<string>)>, which: string -> Option<string>, run: seq<string> -> Proc)
    returns (infos: seq<ToolInfo>, allCriticalFound: bool)
    requires forall i :: 0 <= i < |tools| ==> |tools[i].1| >= 1
    ensures |infos| == |tools|
    ensures forall i :: 0 <= i < |tools| ==> infos[i] == ToolInfoOf(tools[i].0, which(tools[i].1[0]), run(tools[i].1))
    ensures allCriticalFound <==> forall i :: 0 <= i < |tools| && Critical(tools[i].0) ==> infos[i].found
  {
    infos := [];
    allCriticalFound := true;
    for i := 0 to |tools|
      invariant |infos| == i
      invariant forall k :: 0 <= k < i ==> infos[k] == ToolInfoOf(tools[k].0, which(tools[k].1[0]), run(tools[k].1))
      invariant allCriticalFound <==> forall k :: 0 <= k < i && Critical(tools[k].0) ==> infos[k].found
    {
      var (tool, command) := tools[i];
      var info := GetToolInfo(tool, which(command[0]), run(command));
      infos := infos + [info];
      if Critical(tool) && !info.found {
        allCriticalFound := false;
      }
    }
  }

  /** The exit status of the script: 1 exactly when a critical tool is
      missing. */
  function ExitStatus(allCriticalFound: bool): (code: int)
    ensures code == 0 || code == 1
    ensures code == 1 <==> !allCriticalFound
  {
    if !allCriticalFound then 1 else 0
  }

}
