# Cursor rules tooling, modelled in Dafny

This project models the helper scripts of a Cursor rules repository. The
scripts support its agent workflow: they read tool output, check the
environment, and consolidate or scaffold rule files. Each script is one
Dafny module:

- `GitStatus` (`git_status.dfy`): `rules/tools/parse_git_status.py`. It reads
  `git status --porcelain` output into staged, unstaged, untracked and
  conflicted lists, and a clean flag.
- `Linter` (`linter.dfy`): `rules/tools/run_linter.py`. It builds the flake8
  or eslint command, parses flake8's `path:line:col: code message` lines,
  and produces the JSON summary and exit status.
- `Scaffold` (`scaffold.dfy`): `tools/scaffold_agent.py`. It sanitises an
  agent name to kebab-case, derives the rule file name and content, and
  refuses to overwrite an existing file.
- `Audit` (`audit.dfy`): `tools/check_dependencies.py`. It summarises
  `npm audit --json` and `pip-audit --format json` reports and decides the
  exit status.
- `Versions` (`versions.dfy`): `rules/tools/check_versions.py`. It runs
  `<tool> --version` and extracts the version.
- `Environment` (`environment.dfy`): `tools/verify_environment.py`. It finds
  each configured tool on the PATH, records its version, and checks whether
  every critical tool is present.
- `Classes` (`classes.dfy`): `tools/analyze_css_php_classes.py`. It collects
  the classes used in PHP `class="…"` attributes and the classes defined by
  CSS selectors, following `@import`s. The scan is a class whose methods
  update the class sets and the set of processed files.
- `LogAnalysis` (`log_analysis.dfy`): `tools/analyze_log.py`. It summarises
  a request log: agents used, start and end, final status and errors.
- `ConsolidateCode` (`consolidate_code.dfy`): `tools/consolidate_code.py`.
  It walks the tree, skips `.git`, and writes every file, with directory
  banners, into `full_code.txt`.
- `ConsolidateRules` (`consolidate_rules.dfy`): `rules/tools/consolidate_rules.py`.
  It gathers the `.mdc` rule files, drops those matched by exclude patterns,
  and writes them, in path order, into one Markdown document.

The helper modules define the Python behaviour the scripts rely on:

- `Wrappers`: `Option`.
- `Strings`: `strip`, `split`, `join`, `lower`, `splitlines`, `int`/`str`
  conversions, and substring tests.
- `Sorting`: code-point string order, sorting, and `sorted(set)`.
- `Json`: JSON values (integer numbers, objects as member lists), with dict
  `get`, `len` and truthiness.
- `Subprocess`: the outcome of `subprocess.run`. A command is either not
  found, or it exits with a code, stdout and stderr.
- `Regex`: the handful of regular expressions the scripts use, each written
  out as a matcher.

Everything the scripts do outside Python is a parameter of the model:
running commands, `shutil.which`, walking and reading the filesystem,
`json.loads`, `glob`, `Path.match` and timestamp parsing. Every operation
that loops or fills a result step by step is a method. Each method is
proved against a function that states what it computes, and the lemmas
state the properties.

## Model

| member | source | states |
|---|---|---|
| GitStatus.Routing | rules/tools/parse_git_status.py:38-59 | a line's two-column code routes it: `??` goes only to untracked and `UU` only to conflicts (described "Unmerged"); any other code gives a staged record exactly when X is one of M A D R C and an unstaged record exactly when Y is M or D |
| GitStatus.ParseLines | rules/tools/parse_git_status.py:23-64 | the loop yields, list by list, the records of the lines in line order and `is_clean` exactly when all four lists are empty; a one-character line gives no status (the IndexError that `run_git_status` catches) |
| GitStatus.ParsePorcelain | rules/tools/parse_git_status.py:18-21 | blank output gives a clean status with four empty lists; otherwise the lines of `output.strip().split('\n')` are read |
| GitStatus.LineInert | rules/tools/parse_git_status.py:23-61 | a line adds no record to any list exactly when it is empty or has a status none of the four branches records |
| GitStatus.CleanIff | rules/tools/parse_git_status.py:64 | the tree is reported clean exactly when every line of the output is inert |
| GitStatus.GatherOrigin | rules/tools/parse_git_status.py:23-59 | every record of a list is the record of one particular line of the output |
| GitStatus.StagedRecord | rules/tools/parse_git_status.py:45-52 | every staged record has X status M, A, D, R or C and the description that matches it |
| GitStatus.UnstagedRecord | rules/tools/parse_git_status.py:55-59 | every unstaged record has Y status M or D and the description that matches it |
| GitStatus.UntrackedAndConflictRecords | rules/tools/parse_git_status.py:38-42 | untracked records are `??` with no description; conflict records are `UU` described "Unmerged" |
| GitStatus.LeadingSpaceMisread | rules/tools/parse_git_status.py:18 | as written, the output " M a.txt\n" is read as a staged modification of ".txt" and no unstaged change |
| GitStatus.ParsePorcelainIntended | rules/tools/parse_git_status.py:18-21 | the corrected parser: blank output is clean, otherwise the lines of the output with only trailing whitespace removed are read |
| GitStatus.IntendedSeesEntries | rules/tools/parse_git_status.py:18 | with the correction, the lines read from git's output are exactly the entries git wrote, whatever their status columns |
| GitStatus.LeadingSpaceIntended | rules/tools/parse_git_status.py:18 | with the correction, " M a.txt\n" is an unstaged modification of "a.txt" |
| GitStatus.RunGitStatus | rules/tools/parse_git_status.py:68-96 | a missing git, a failed or negative `rev-parse --is-inside-work-tree` and a failing status command each give their error; a report is returned exactly when both commands succeed and the output parses, and it is the status parsed as written (`AsWritten`, the script) or with the corrected reading (`Intended`) |
| GitStatus.ExitCode | rules/tools/parse_git_status.py:102-105 | the exit status is 0 exactly when there is no error and the tree is clean, otherwise 1 |
| Linter.BaseCommand | rules/tools/run_linter.py:9-15 | a command is configured exactly for Python with `lint` or `format`, and it is non-empty |
| Linter.NonBlank | rules/tools/run_linter.py:22-24 | the lines kept are non-blank and no more than the input lines |
| Linter.ParseFlake8Output | rules/tools/run_linter.py:19-41 | the loop returns exactly one parsed issue per non-blank line, in line order |
| Linter.FormatErrorIff | rules/tools/run_linter.py:25-40 | a line becomes a `format_error` exactly when it has fewer than four colons |
| Linter.SplitMaxJoin | rules/tools/run_linter.py:25 | `split(':', maxsplit=4)` gives back the five fields when the first four hold no colon |
| Linter.ParseRendered | rules/tools/run_linter.py:11 | every line flake8 writes under the configured `--format` for an issue with colon-free path and code and a stripped message is read back as that issue |
| Linter.ReadReport | rules/tools/run_linter.py:75-88 | a whole flake8 report, stripped and split into lines, is parsed back into exactly the issues it reports |
| Linter.RunTool | rules/tools/run_linter.py:43-132 | an unsupported request is refused; a command that cannot start fails as "not found"; otherwise success, error, issues, count, formatted-file count and message follow the exit status and outputs as the lint and format branches say, and a status 127 or a shell complaint turns the result into "not found" |
| Linter.Completed | rules/tools/run_linter.py:83-121 | once the command has run, success, error, issues, count, formatted-file count and message follow the exit status and outputs as the lint and format branches say, and a status 127 or a shell complaint about the executable overrides them with "not found" |
| Linter.ExitStatus | rules/tools/run_linter.py:161-163 | the exit status is 0 exactly when the run succeeded and, for `lint`, found no issue |
| Linter.RunLinterScript | rules/tools/run_linter.py:135-165 | a wrong number of arguments or a missing target exits 1 (the latter with its error dict); otherwise the lower-cased language and action are run and the exit status follows the result |
| Linter.LintExitZero | rules/tools/run_linter.py:83-95 | a lint run exits 0 exactly when flake8 exits 0, no shell reports it missing, and every line of its report is blank |
| Scaffold.SanitizeIsKebab | tools/scaffold_agent.py:8-19 | the file name made from any agent name uses only `[a-z0-9-]`, has no hyphen at either end and no two hyphens in a row |
| Scaffold.SanitizeKeepsAlnums | tools/scaffold_agent.py:8-19 | the file name keeps exactly the letters and digits of the agent name, in order and lower-cased |
| Scaffold.SanitizeIdempotent | tools/scaffold_agent.py:8-19 | making a file name from a file name changes nothing |
| Scaffold.KebabFixed | tools/scaffold_agent.py:11-18 | a kebab-case name passes every step of the pipeline unchanged |
| Scaffold.ExampleSanitize | tools/scaffold_agent.py:11-18 | `MyNewAgent` becomes `my-new-agent` |
| Scaffold.ValidNameHasFileName | tools/scaffold_agent.py:59-64 | a name that passes the PascalCase check always gives a non-empty file name |
| Scaffold.RuleContentTitle | tools/scaffold_agent.py:21-23 | the rule file starts with the line `# Agent Rule: <name>` |
| Scaffold.ScaffoldAgent | tools/scaffold_agent.py:57-85 | an invalid name is rejected with its message and nothing written; a file is created exactly when the name is valid, its path is free and neither creating the directory nor writing fails; it is created at `.cursor/rules/agents/<file name>.mdc` with the template and no other file changes; an existing file is never overwritten |
| Scaffold.WriteRuleFile | tools/scaffold_agent.py:69-85 | a failure to create the directory or to write rejects with its message and changes nothing; an existing file is refused and left as it was; otherwise exactly that one file is added, with the given content |
| Scaffold.ExitStatus | tools/scaffold_agent.py:97-100 | the exit status is 0 exactly when the rule file was created, otherwise 1 |
| Audit.CollectVia | tools/check_dependencies.py:40-46 | the `via` loop gives, item by item, a string unchanged and a dict as "name (severity) - title" with "?" for a missing field |
| Audit.ViaOfStrings | tools/check_dependencies.py:42-44 | a `via` list of strings is kept as it is |
| Audit.ViaLength | tools/check_dependencies.py:42-46 | every string or dict item gives exactly one `via` line and any other item none |
| Audit.FirstNonDict | tools/check_dependencies.py:39-41 | the package loop gets through exactly the packages before the first whose details are not a dict |
| Audit.NpmSummary | tools/check_dependencies.py:18-58 | the npm summary has tool "npm" and the five severity keys info, low, moderate, high, critical in that order |
| Audit.CollectNpmPackages | tools/check_dependencies.py:39-53 | the loop makes one record per package up to the first non-dict details, and reports those details as what stopped it |
| Audit.ParseNpmAudit | tools/check_dependencies.py:18-58 | the parser returns the summary `NpmSummary` specifies, error paths included |
| Audit.NpmErrorKey | tools/check_dependencies.py:28-30 | a report with an "error" key keeps the zero counts and no packages, and its error is the error's "summary" (default "Unknown npm error") |
| Audit.NpmCounts | tools/check_dependencies.py:32-36 | `vulnerabilities_found` is the metadata's "total" and each severity count is copied from the metadata, 0 when absent |
| Audit.NpmOneRecordPerPackage | tools/check_dependencies.py:38-53 | with dict details throughout there is one record per package, in order, and no error |
| Audit.NpmStopsAtBadDetails | tools/check_dependencies.py:39-56 | a package whose details are not a dict ends the loop: the records before it are kept and the error is the AttributeError text |
| Audit.FirstUnhandled | tools/check_dependencies.py:74-79 | the pip loop gets through exactly the vulnerabilities before the first that is not a dict with a string severity |
| Audit.PipSummary | tools/check_dependencies.py:60-93 | the pip summary has tool "pip" |
| Audit.CollectPipRecords | tools/check_dependencies.py:74-88 | the loop counts each of the four known severities and makes one record per vulnerability up to the first it cannot handle, which it reports |
| Audit.ParsePipAudit | tools/check_dependencies.py:60-93 | the parser returns the summary `PipSummary` specifies, error paths included |
| Audit.PipFound | tools/check_dependencies.py:71-72 | `vulnerabilities_found` is the length of the vulnerability list, and without an error there is one record per vulnerability |
| Audit.PipCountsBounded | tools/check_dependencies.py:76-79 | severities outside the four keys are not counted, so the counts never add up to more than `vulnerabilities_found` |
| Audit.RunAudit | tools/check_dependencies.py:95-151 | an unsupported manager, a command that cannot start, a silent failure (with the pip-audit hint) and undecodable output each give their error; a silent success gives the no-output result; decoded output goes to the manager's parser |
| Audit.ExitStatus | tools/check_dependencies.py:167-170 | the exit status is 0 or 1 |
| Audit.ExitZeroIff | tools/check_dependencies.py:167-170 | the script ends with 0 exactly when the error is falsy and `vulnerabilities_found` is a number not above 0 (or `False`) |
| Audit.RunOutcomeStatus | tools/check_dependencies.py:122-130 | a failure with a message ends the script with 1, a silent successful run with 0 |
| Audit.CheckDependencies | tools/check_dependencies.py:154-170 | a wrong number of arguments exits 1; otherwise the lower-cased manager is audited and the exit status follows the result: 1 for an unsupported manager or a missing command, and for a silent run 0 exactly when it exited 0 |
| Versions.ToolVersion | rules/tools/check_versions.py:25-27 | a tool with no entry in `TOOL_COMMANDS` is reported as "unknown tool" without running anything |
| Versions.ClassifyCases | rules/tools/check_versions.py:45-74 | "not found" exactly for a command that cannot start or fails without output; a version exactly when the combined output holds `\d+\.\d+` (and it is the regex match); "version format unrecognized" exactly for other non-blank output; "not found (no output)" exactly for a blank success |
| Regex.ToolVersionShape | rules/tools/check_versions.py:56-61 | the version found starts with a digit, holds a '.', is made of `[a-zA-Z0-9.-]`, is the longest such run at the leftmost `\d+\.\d+`, and there is none exactly when no `\d+\.\d+` occurs |
| Versions.BlankHasNoVersion | rules/tools/check_versions.py:56 | blank output holds no version |
| Versions.FirstAppearances | rules/tools/check_versions.py:91-93 | the keys of the results dict: every tool named, each once, in the order first set |
| Versions.CheckVersions | rules/tools/check_versions.py:80-96 | every tool named (python, node and git when none is), lower-cased, is a key whose value is that tool's version result, and there are no other keys |
| Versions.DefaultsChecked | rules/tools/check_versions.py:84-87 | with no arguments exactly python, node and git are checked, in that order |
| Environment.ToolsToCheck | tools/verify_environment.py:12-22 | six tools are configured, each with a non-empty command |
| Environment.ToolInfoCases | tools/verify_environment.py:24-84 | a tool missing from the PATH is "Not found in PATH." whatever its command would do; a tool is found exactly when it is on the PATH and its command can start; a version is recorded exactly for a successful run with output, and an error exactly when there is no version; a failing run with output reports its exit status and the first 100 characters |
| Environment.GetToolInfo | tools/verify_environment.py:24-84 | filling the record field by field gives the record `ToolInfoOf` describes |
| Regex.DottedVersionShape | tools/verify_environment.py:65-69 | the version taken from the output is digits and dots, starts and ends with a digit and holds a '.', and there is none exactly when no `\d+\.\d+` occurs |
| Environment.VersionShape | tools/verify_environment.py:63-69 | the recorded version is such a dotted number, or the whole output when it holds no `\d+\.\d+` |
| Environment.VerifyAllTools | tools/verify_environment.py:86-100 | one record per configured tool, in configuration order, each the tool's record; `all_critical_found` holds exactly when git, python and pip were all found |
| Environment.ExitStatus | tools/verify_environment.py:107-110 | the exit status is 1 exactly when a critical tool is missing, otherwise 0 |
| Classes.PhpMatchAt | tools/analyze_css_php_classes.py:10 | a match of the class-attribute pattern captures a non-empty, quote-free value that ends just before the closing quote |
| Classes.PhpValues | tools/analyze_css_php_classes.py:34-35 | every attribute value `finditer` yields is non-empty and holds no quote |
| Classes.RemoveChar | tools/analyze_css_php_classes.py:43 | removing a character leaves none of it |
| Classes.ValueClassesStep | tools/analyze_css_php_classes.py:34-45 | one more attribute value adds exactly the classes of its whitespace-separated tokens |
| Classes.TokenClassesShape | tools/analyze_css_php_classes.py:38-45 | a class kept from tokens without whitespace or quotes is non-empty, free of `< > { } $`, whitespace and quotes |
| Classes.PhpClassesShape | tools/analyze_css_php_classes.py:25-45 | every class found in a PHP file is non-empty, holds none of `< > { } $`, no whitespace and no quote, so the escaped-quote removal never changes it |
| Classes.ClassRunEnd | tools/analyze_css_php_classes.py:16 | the class-name group takes the whole run of `[_a-zA-Z0-9-]` |
| Classes.CssNamesFound | tools/analyze_css_php_classes.py:14-18 | every name `finditer` yields is a whole, non-empty run of class characters right after a '.' and followed by ':', '[', '(' or the end of the content |
| Classes.CssClassesShape | tools/analyze_css_php_classes.py:82-87 | every class a CSS file defines has that shape and comes from such a selector of the file |
| Classes.CloseAt | tools/analyze_css_php_classes.py:21 | the lazy `.*?` of the import pattern stops at the first closing quote and parenthesis on the line |
| Classes.ReadLines | tools/analyze_css_php_classes.py:59-83 | joining the lines `readlines` gives back the file's content |
| Classes.ClassesOfUnion | tools/analyze_css_php_classes.py:47-87 | the classes of two sets of CSS files are the classes of each together |
| Classes.ClassScan.constructor | tools/analyze_css_php_classes.py:109-111 | the class sets and the processed-file set start empty |
| Classes.ClassScan.ExtractPhpClasses | tools/analyze_css_php_classes.py:25-45 | a readable PHP file adds exactly its classes to the PHP set; an unreadable one adds nothing |
| Classes.ClassScan.AddTokens | tools/analyze_css_php_classes.py:37-45 | the token loop adds exactly the tokens that pass the filter, unescaped |
| Classes.ClassScan.ExtractCssClasses | tools/analyze_css_php_classes.py:47-87 | an already processed file changes nothing; otherwise the file becomes processed, every other newly processed file is an existing file under the CSS directory, the newly processed files are exactly those reached from the file by imports through files not processed before (the least such set), each of them has all its imports processed, and the CSS set grows by exactly their classes |
| Classes.ClassScan.ReadCssFile | tools/analyze_css_php_classes.py:57-87 | once the file is marked processed and readable, all its imports end up processed, the files newly processed are reached from those imports and have their own imports processed, and the CSS set grows by their classes and the file's own selectors |
| Classes.ClassScan.FollowImports | tools/analyze_css_php_classes.py:65-79 | after the loop the import of every line that resolves to an existing file under the CSS directory is processed; the newly processed files are existing files under the CSS directory, reached from those imports, with their own imports processed, and add exactly their classes |
| Classes.ClassScan.FollowLine | tools/analyze_css_php_classes.py:66-79 | a line whose import resolves to an existing file under the CSS directory ends with that file processed, together with the files reached from it; any other line processes nothing; exactly the classes of the files processed are added |
| Classes.ClassScan.ScanPhpFiles | tools/analyze_css_php_classes.py:114-121 | the PHP walk adds exactly the classes of the `.php` files outside excluded directories |
| Classes.ClassScan.ScanCssFiles | tools/analyze_css_php_classes.py:124-132 | the CSS walk processes every `.css` file outside excluded directories and the files their imports reach, and nothing else (the least set closed under imports among the new files); every processed file has its imports processed, and the CSS set grows by exactly the classes of the files processed |
| Classes.ClassScan.AddSelectors | tools/analyze_css_php_classes.py:84-87 | the selector loop adds exactly the names found |
| Classes.ImportTarget | tools/analyze_css_php_classes.py:66-75 | the import a line leads to is followed only when its resolved path lies under the CSS directory and is a file |
| Classes.RootFirst | tools/analyze_css_php_classes.py:52-79 | a file processed before the files reached from its imports has all of them reached from itself |
| Classes.Explored | tools/analyze_css_php_classes.py:124-132 | two rounds of processing, each reached from its roots and each closed under imports, together are reached from both sets of roots and closed |
| Classes.ClosureOfScan | tools/analyze_css_php_classes.py:124-132 | a processed set that holds the scanned files, is closed under imports and is reached from the scanned files is their import closure |
| Classes.ImportClosureUnique | tools/analyze_css_php_classes.py:47-79 | the import closure of a set of files is unique |
| Classes.CssReportDetermined | tools/analyze_css_php_classes.py:146-152 | two CSS outputs for the same walk and the same files list the same classes |
| Classes.AnalyzeClasses | tools/analyze_css_php_classes.py:92-152 | a missing PHP or CSS directory is an error; otherwise the PHP output lists exactly the classes of the scanned PHP files and the CSS output exactly the classes of the import closure of the scanned CSS files, each in strictly ascending order and so without duplicates |
| LogAnalysis.ParseLogEntry | tools/analyze_log.py:8-42 | the parsed entry of a dict takes role, status and next agent with their defaults, keeps the timestamp only when it is truthy and parses, and records the first error-like observation; an entry that is not a dict yields nothing (the failing `.get`) |
| LogAnalysis.ScanObservations | tools/analyze_log.py:31-37 | the observation loop stops at the first observation that signals an error and returns its error, which is the first error of the list; when none signals one, the entry's error stays null |
| LogAnalysis.EntryDefaults | tools/analyze_log.py:10-16 | a missing `agentRole` reads as "UnknownAgent", a missing `status` as "unknown", a missing `nextAgent` as null; present values are kept as they are |
| LogAnalysis.FirstErrorIsFirst | tools/analyze_log.py:29-37 | the recorded error is null when no observation signals one, and otherwise the error of the first observation that does (a string containing "error"/"failed" in any case, or a dict of type "error" with its message or the default text) |
| LogAnalysis.SortByTime | tools/analyze_log.py:86 | the stable sort by timestamp returns the same entries (as a multiset) in non-decreasing time order |
| LogAnalysis.InsertByTime | tools/analyze_log.py:86 | inserting one entry into a time-sorted list keeps it sorted and adds exactly that entry |
| LogAnalysis.LastLatest | tools/analyze_log.py:94 | the index of the last entry carrying the latest time: no entry is later, and every entry after it is strictly earlier |
| LogAnalysis.EarliestTime | tools/analyze_log.py:93 | a lower bound on every entry's time |
| LogAnalysis.EarliestAttained | tools/analyze_log.py:93 | the earliest time is the time of some entry |
| LogAnalysis.SortedLast | tools/analyze_log.py:94-100 | after the stable sort the final entry is the last of the latest entries of the input, so `endTime`, `finalStatus` and `finalNextAgent` come from it |
| LogAnalysis.SortedFirst | tools/analyze_log.py:93 | after the sort the first entry carries the earliest time |
| LogAnalysis.SortedEnds | tools/analyze_log.py:93-100 | both ends of the sorted list together: earliest time first, last latest entry last |
| LogAnalysis.StartNotAfterEnd | tools/analyze_log.py:93-94 | the reported start time is never after the reported end time |
| LogAnalysis.ParseAll | tools/analyze_log.py:83 | when every entry parses the result has one parsed entry per log entry |
| LogAnalysis.ParseAllFails | tools/analyze_log.py:83 | once an entry fails to parse, the later entries do not change the outcome: the comprehension stops at the first non-dict |
| LogAnalysis.DictsParse | tools/analyze_log.py:83 | a list of dicts always parses |
| LogAnalysis.ParseEntries | tools/analyze_log.py:83 | the loop over the log entries computes the parse outcome |
| LogAnalysis.Valid | tools/analyze_log.py:85 | every kept entry has a timestamp |
| LogAnalysis.ValidEntries | tools/analyze_log.py:85 | an entry is kept exactly when it is a parsed entry with a timestamp |
| LogAnalysis.ValidAppend | tools/analyze_log.py:85 | the kept entries keep their order: the entries kept from two runs are those of the first, then those of the second |
| LogAnalysis.Errors | tools/analyze_log.py:102 | every reported error is truthy, every truthy entry error is reported, and there are no more errors than entries |
| LogAnalysis.ErrorsAppend | tools/analyze_log.py:102 | the errors are reported in the order of their entries |
| LogAnalysis.SameRoles | tools/analyze_log.py:92 | reordering entries (same multiset) does not change whether all roles are strings nor the set of role names |
| LogAnalysis.AgentsUsed | tools/analyze_log.py:92 | `agentsUsed` is strictly sorted and holds exactly the roles of the entries with a timestamp |
| LogAnalysis.Summarised | tools/analyze_log.py:92-102 | fields read off the time-sorted entries (first, last, roles, errors) satisfy the summary specification stated on the unsorted entries |
| LogAnalysis.Summarise | tools/analyze_log.py:83-102 | no entry with a timestamp gives "No log entries with valid timestamps found."; a role that is not a string gives the unexpected-error message of the failed sort; otherwise the summary has sorted distinct agents, start at the earliest time, end, final status and final next agent from the last latest entry, and the truthy errors of all parsed entries |
| LogAnalysis.AnalyzeLogFile | tools/analyze_log.py:44-109 | a missing file gives "Log file not found." with `found` false; undecodable JSON, a value that is not a list, and an empty list give their own messages, with every other field at its initial value; otherwise `entryCount` is the list length, a non-dict entry gives the unexpected-error message, and the rest is the summary above |
| ConsolidateCode.CollectFiles | tools/consolidate_code.py:29-42 | the result is sorted and holds exactly the paths the walk appends (as a multiset), in the walk's own order before sorting |
| ConsolidateCode.KeptIff | tools/consolidate_code.py:18-41 | a file is collected exactly when no directory on its path is `.git` and its name is neither `full_code.txt` nor `consolidate_code.py` |
| ConsolidateCode.CollectedClean | tools/consolidate_code.py:29-42 | every collected path is the normalised path of a walked file outside any `.git` directory and not an excluded name |
| ConsolidateCode.WriteAllCode | tools/consolidate_code.py:44-71 | the writer's output is the document: per file, its directory banner, the three-line file header, the text (or the binary or read-error marker) and a blank line |
| ConsolidateCode.IntendedBanners | tools/consolidate_code.py:52-56 | with root files stored as `.`, a banner is written exactly when the first file is outside the root or a file's directory differs from the previous file's, and it names that directory |
| ConsolidateCode.RootBannersAsWritten | tools/consolidate_code.py:50-56 | as written, for root files `a.txt` then `b.txt` the first gets a banner naming `.` and the second a banner with an empty directory name |
| ConsolidateCode.RootFilesBanneredAsWritten | tools/consolidate_code.py:50-71 | as written, every root file after the first gets an empty-named banner, since "" is compared with the stored "." |
| ConsolidateCode.Consolidate | tools/consolidate_code.py:73-76 | the script collects the files, writes the document for them with the given banner rule (`AsWritten` is the script, `Intended` the corrected rule), and reports "✅ Consolidated N files into full_code.txt" with N the number of files |
| ConsolidateRules.KeyOrder | rules/tools/consolidate_rules.py:41-43 | the string key of a path (parts joined by the smallest character) orders exactly as `Path` objects do: part by part, a proper prefix first |
| ConsolidateRules.KeyParts | rules/tools/consolidate_rules.py:41-43 | the key of a path splits back into that path's parts |
| ConsolidateRules.MatchScanStops | rules/tools/consolidate_rules.py:34-38 | once `Path.match` raises, the rest of the files are not looked at: the outcome is the one at the failure |
| ConsolidateRules.MatchScanCatches | rules/tools/consolidate_rules.py:34-36 | when no match raises, the scan reports no error and catches exactly the files the pattern matches |
| ConsolidateRules.PatternExcludes | rules/tools/consolidate_rules.py:27-36 | a pattern that raises nowhere excludes exactly what `glob` finds under the rules directory together with the found files it matches |
| ConsolidateRules.ExclusionsUnion | rules/tools/consolidate_rules.py:22-38 | a path is excluded exactly when some pattern's outcome (what it added before any exception) holds it |
| ConsolidateRules.ExclusionsGrow | rules/tools/consolidate_rules.py:22-38 | later patterns only add exclusions: what the first patterns exclude stays excluded |
| ConsolidateRules.WarningsCount | rules/tools/consolidate_rules.py:37-38 | at most one warning per pattern, and none exactly when no pattern raises |
| ConsolidateRules.CollectExclusions | rules/tools/consolidate_rules.py:22-38 | the loop over the patterns computes the excluded set and the warnings, in pattern order |
| ConsolidateRules.SelectFiles | rules/tools/consolidate_rules.py:41-43 | the files to process are exactly the found files that are not excluded, in strictly increasing path order |
| ConsolidateRules.HeaderOnlyPrepends | rules/tools/consolidate_rules.py:56-57 | the header flag only puts `## Source: `rel`` in front of what the file adds |
| ConsolidateRules.SectionShape | rules/tools/consolidate_rules.py:56-66 | a readable file without header adds its text verbatim followed by the separator; an unreadable file adds the header (twice when headers are on) then the error line; every section ends with `---` and a blank line |
| ConsolidateRules.SectionsAppend | rules/tools/consolidate_rules.py:53-66 | the output of a list of files is the outputs of its parts concatenated: each file's section depends on that file alone |
| ConsolidateRules.SectionInPlace | rules/tools/consolidate_rules.py:52-66 | the document is the title, the sections of the earlier files, this file's section, then the later files' sections |
| ConsolidateRules.WriteSection | rules/tools/consolidate_rules.py:54-66 | the writes for one file append its section to the output |
| ConsolidateRules.WriteRules | rules/tools/consolidate_rules.py:51-66 | the output file holds the title naming the resolved rules directory followed by one section per file, in order |
| ConsolidateRules.Consolidate | rules/tools/consolidate_rules.py:6-71 | the files processed are the found, unexcluded files in path order; the document is written exactly when the output can be opened; the printed lines are the warnings, the found count, the excluded count when anything was excluded, then the success or the write-error line |
| ConsolidateRules.PatternList | rules/tools/consolidate_rules.py:101 | a non-empty `--exclude_patterns` gives one comma-free pattern per comma-separated piece; a missing or empty one gives none |
| ConsolidateRules.PatternListRoundTrip | rules/tools/consolidate_rules.py:101 | joining comma-free patterns with commas and passing them on the command line gives back the same patterns |
| ConsolidateRules.IncludeHeaderCases | rules/tools/consolidate_rules.py:92-97 | headers are on by default and for any capitalisation of `true`; `yes`, `1`, `false` and any text not four letters long turn them off |

## Left out

- Running commands, `shutil.which`, `os.walk`, `os.path.exists`, reading and writing files, `json.load`/`json.loads`, `glob`, `rglob` and `Path.match` are parameters of the model. Their own behaviour is not modelled.
- Paths: `Classes` works on absolute, normalised paths, and its `resolve` parameter stands for `os.path.join`, `normpath` and `abspath` of an import. Elsewhere `os.path.normpath`, `abspath` and `Path.resolve` are the identity on the clean relative paths those scripts are given. Symbolic links are not modelled.
- Strings are sequences of code points. Case folding (`lower`, `re.IGNORECASE`) and `str.isspace`/`isalnum` are modelled for ASCII only.
- Json: numbers are integers, so a JSON float (`1.5`) is not modelled. An object is a list of members, and one with a repeated key is read by its first binding (`Json.Lookup`), where `json.loads` keeps the last; the model assumes keys are not repeated.
- Subprocess: `subprocess.run` either cannot start the command (`FileNotFoundError`) or the command exits. Other exceptions it may raise (a `PermissionError`, for instance) are not modelled, and neither are the `except Exception` branches that report them: `rules/tools/run_linter.py:126-130`, `tools/check_dependencies.py:148-151`, `rules/tools/check_versions.py:75-78`, `tools/verify_environment.py:44-46` and `:81-82`, `rules/tools/parse_git_status.py:95-96`.
- Scaffold.WriteRuleFile: a write error is taken as a failure to open the file, which leaves the files unchanged. A write that fails after `open(filepath, 'w')` succeeded would leave an empty file behind, so that the next run reports that the file already exists; that case is not modelled.
- The text of Python exceptions (`str(e)`) is a parameter, or the message Python gives for the one case the model raises (`'…' object has no attribute 'get'`). Other exception texts are not modelled.
- GitStatus.PathOf: a quoted path has its quotes removed, but the `unicode_escape` decoding of its escape sequences is not modelled (it depends on byte encodings).
- Messages printed to stdout or stderr only for information (progress lines, `Processing:`, `Error reading file …` in `consolidate_rules.py`, the CSS `@import` traces, and the read errors and import warnings of `tools/analyze_css_php_classes.py`) are not modelled. The lines that make up a script's result or its JSON output are modelled.
- The class-list files of `analyze_css_php_classes.py` are modelled as the sorted list of names. The separator written after each name is not modelled: the source text shows `'\\n'`, and whether that is a newline or a backslash and an `n` depends on how the file was saved.
- Classes.Unescape: the replacement of escaped quotes inside a PHP class token removes quote characters. On the tokens that reach it, which hold no quote (PhpClassesShape), either reading leaves the token unchanged.
- LogAnalysis: timestamps are instants given by the `parseTime` parameter (`datetime.fromisoformat`, then `strptime`). `startTime` and `endTime` are those instants, not their `isoformat()` text. `durationSeconds` is not modelled, because it needs floating-point rounding. Neither is the `TypeError` from comparing naive and aware datetimes.
- LogAnalysis: `sorted(set(agentRole …))` is modelled as succeeding exactly when every role is a string. A log whose roles are all numbers, for instance, sorts in Python but is reported as a sort failure here.
- LogAnalysis.ValidEntries: states which entries are kept. Their order, on which the stable sort's tie-breaking and so `SortedLast` depend, is stated by ValidAppend.
- LogAnalysis.Errors: states which errors are reported and bounds their number. Their order is stated by ErrorsAppend.
- The `__main__` block of `tools/analyze_log.py` is not modelled. It calls `re.match` without importing `re`, so the request-id check raises `NameError` before any analysis.
- ConsolidateRules: the set `all_mdc_files` is given as a sequence in its iteration order. That order only decides which files `Path.match` reaches before an exception.
- ConsolidateRules.Consolidate: only a failure to create or open the output file is modelled. A failure partway through writing it is not.
- ConsolidateCode: a regular file named `.git` is collected like any other file (the walk excludes directories only), and the model keeps that.
- `tools/sync_rules.py`, `tools/generate_description_index.py` and `rules/tools/get_current_time.py` are not part of this model.

## Findings

| source | as written | input that shows it | evidently intended | confidence | as-written member | corrected member |
|---|---|---|---|---|---|---|
| rules/tools/parse_git_status.py:18 | `output.strip()` also removes the leading space of the first line, so its status columns shift by one | output `" M a.txt\n"` is read as a staged modification of `.txt` instead of an unstaged modification of `a.txt` | strip only the end of the output (`rstrip`) | high, not executed | GitStatus.LeadingSpaceMisread | GitStatus.ParsePorcelainIntended |
| tools/consolidate_code.py:50-56 | the directory of a root file is `''`, which is compared with the stored `'.'`, so root files keep getting banners | files `["a.txt", "b.txt"]`: `a.txt` gets a banner naming `.` and `b.txt` a banner with an empty directory name | treat the root as `.` on both sides, so that no banner is written while the directory stays the root | high, not executed | ConsolidateCode.RootBannersAsWritten | ConsolidateCode.IntendedBanners |
