# Installation-repair loop of r2e, modelled in Dafny

This project models the decision logic of the r2e installation scripts. The
scripts finish installing a partially installed Python repository inside a
Docker container. A language model proposes shell commands. A self-equivalence
oracle decides whether the installation is complete. A human is consulted on
critical failures. The Docker, rpyc and OpenAI calls around that logic are
not modelled: every collaborator is a scripted sequence of answers.

Modules, one per source file or concern:

- `ExecStatus` (ExecStatus.dfy): the oracle's verdict reduction,
  `check_execution_status`, in its two diverging variants. reduced.py reports
  success when no entry carries an `"error"` key. installer.py looks for a
  success marker. The parsed JSON is a datatype: a list of items, each with an
  optional `test_history`, an optional `history`, and entries with an optional
  `exec_stats` map. Both variants are loops proved equal to the functions
  `ReducedVerdict` and `InstallerOutcome`. `VariantsCompared` puts them side by
  side.
- `Commands` (Commands.dfy): normalising the model's answer, the two oracle
  sentinels and the `bash -c` wrapping. `shlex.quote` is an uninterpreted
  function parameter `quote`.
- `LoopCommon`, `ReducedLoop`, `InstallerLoop`: `agentic_loop` (reduced.py) and
  `complete_installation` (installer.py). Each round is a function `Step` and
  the session is `Run`. The methods `AgenticLoop` and `CompleteInstallation`
  are the `while True` loops as written, proved equal to `Run`. The inputs are
  the model's suggestions, the sandbox results, the oracle runs, the human's
  replies and the "continue?" replies. Each is a finite sequence, and the loop
  stops when one runs out (`InputExhausted`). Calls to `stop_container` and
  `container.stop()`/`remove()` are ghost out-parameters.
- `RepoIds` (RepoIds.dfy): the id `<author>___<name>` that `install_repo`
  derives from a URL, and classify.py's `convert_back_repo_format`, which
  inverts it.
- `Classify` (Classify.dfy): `parse_log_file`. The regular expressions are not
  modelled. Their matches, in log order, are the inputs.
- `SelfEquiv` (SelfEquiv.dfy): `get_service`, `run_fut_with_port` and the
  serial branch of `run_self_equiv`. A fut is a class, because
  `update_exec_stats` changes it in place.
- `ExtractFuncs` (ExtractFuncs.dfy): BOM stripping, the directory walk, and
  `build_functions_and_methods`, over a `FileSystem` class.
- `StringUtils`, `Wrappers`: Python string operations on `seq<char>`, and
  `Option`.

Where the code does not do what its own prompts, comments or sibling
variant say, the model follows the code:

- The prompt of installer.py says the installation is complete if and only if
  the oracle returns "INSTALLATION SUCCESSFUL" (installer.py:120), and the
  comment at installer.py:66 expects `any_success` to be set by a success
  message. But installer.py's `check_execution_status` never returns success:
  a non-`None` `exec_stats` without an `"error"` key reaches
  `exec_stats.lower()` on a mapping, which raises (installer.py:63-64), so
  `any_success` is never set. `InstallerNeverSucceeds` and
  `InstallerLoop.NeverInstalled` state the consequence. The raise is caught by
  `installation_oracle`, which returns a string. Unpacking that string into two
  names raises in the loop (`Crashed`).
- reduced.py reports success for an empty oracle output (reduced.py:70), while
  installer.py reports failure with "No error or success messages found"
  (installer.py:70-72).
- reduced.py keeps a `num_consecutive_failures` counter, but resets it at the
  top of every round (reduced.py:137) and its limit test of five failures sits
  inside a string literal (reduced.py:143-146). So an oracle failure never
  ends the loop: there is no failure budget.
- reduced.py reads `output` after an oracle failure (reduced.py:160). Before
  any command has run, that variable is unbound and the loop raises
  (`OracleFailureBeforeAnyCommandCrashes`).
- When `exec_run` raises, the simulator stops its own container and returns a
  `str` (r2e/execution/r2e_simulator.py:70-73). reduced.py then calls
  `.decode` on it, which raises (reduced.py:167). `stop_container` therefore
  runs twice on that path and once on every other path.
- The round trip of `convert_back_repo_format` also needs an author that does
  not end with `_`. For the author `a_` and the name `b`, the id is `a____b`,
  which converts back to `a/_b` (`AuthorEndingInUnderscoreBreaksRoundTrip`).

## Model

| member | source | states |
|---|---|---|
| `ExecStatus.CheckExecutionStatusReduced` | reduced.py:46-70 | The nested loop returns the reduced verdict: failure with the error of the first entry, in item then history order, whose `exec_stats` has an `"error"` key; success iff no entry carries one |
| `ExecStatus.ReducedSuccessIff` | reduced.py:52-70 | Success iff no entry of any item's history has an `"error"` key, and success iff the message is `None`; missing histories and `None` stats are skipped, so the empty list succeeds |
| `ExecStatus.FirstErrorIsFirst` | reduced.py:55-66 | The error reported is that of the first erroneous entry in visiting order |
| `ExecStatus.FirstErrorLocated` | reduced.py:55-66 | Conversely, a reported error sits at an entry with an error and no erroneous entry before it |
| `ExecStatus.EntriesMembership` | reduced.py:55-59 | An entry is visited iff it lies in some item's history (`test_history`/`history` defaulting to empty) |
| `ExecStatus.CheckExecutionStatusInstaller` | installer.py:39-72 | The loop returns installer.py's outcome: the first non-`None` stats decide; with an `"error"` key they give `(False, err)`, without one `.lower()` on a mapping raises; no stats give `(False, "No error or success messages found")`; never success |
| `ExecStatus.VariantsCompared` | installer.py:48-72 | Side by side: with no stats (the empty list included) reduced.py succeeds and installer.py fails; when the first stats carry an error both fail with it; when they carry none installer.py raises |
| `ExecStatus.InstallerNeverSucceeds` | installer.py:62-68 | installer.py's reduction never returns `True`: `any_success` is unreachable |
| `ExecStatus.FirstStatsDecides` | installer.py:52-64 | When the first non-`None` stats carry an error, it is also the first error reduced.py finds; with no stats there is no error |
| `Commands.Normalise` | reduced.py:119 | The normalised suggestion holds no backtick and no newline, whatever the model answered |
| `Commands.NormaliseKeepsPlainReply` | installer.py:132 | A reply whose stripped form has no backtick or newline, a sentinel among them, is only stripped |
| `Commands.ReducedCommand` | reduced.py:164-165 | The command starts with `bash -c `, and its argument is exactly the quoted suggestion behind the virtual-environment activation |
| `Commands.ReducedCommandInjective` | reduced.py:164-165 | With a quoting function that maps distinct strings to distinct strings, distinct suggestions give distinct commands |
| `Commands.InstallerCommand` | installer.py:21 | The command starts with `bash -c `, and its argument is exactly the quoted command, with no activation |
| `Commands.InstallerWorkdir` | installer.py:22 | The working directory is `/repos/` followed by exactly the repository name |
| `Commands.InstallerCommandInjective` | installer.py:21 | With a quoting function that maps distinct strings to distinct strings, distinct commands give distinct `bash -c` invocations |
| `Commands.InstallerWorkdirInjective` | installer.py:22 | Distinct repository names give distinct working directories |
| `LoopCommon.CloseRound` | reduced.py:193 | Ending a round appends to `context`, so the old context is a prefix of the new, and leaves the other fields as they were |
| `LoopCommon.AbortIgnoresCase` | reduced.py:181 | `human_command.upper() == 'ABORT'` holds iff the reply has five characters that upper-case to `ABORT` |
| `LoopCommon.QuitTokens` | reduced.py:196 | `cont.lower() == 'q'` holds exactly for `q` and `Q` |
| `ReducedLoop.AgenticLoop` | reduced.py:129-201 | The loop as written yields the outcome and final state of the round-by-round specification `Run`; `stop_container` runs once, or twice when the simulator's failed call already stopped it |
| `ReducedLoop.SimulatorFailureCrashes` | reduced.py:164-167 | A round whose command makes the simulator fail ends the loop with the `.decode` exception; the wrapped command was sent, and no failure record, output, context change or human reply follows |
| `ReducedLoop.InstalledIff` | reduced.py:148-158 | A round ends the session as installed iff the normalised suggestion is exactly `RUN ORACLE` and the oracle's verdict is success |
| `ReducedLoop.OracleFailureContinues` | reduced.py:136-160 | An oracle failure (after a command ran) records a failure for `RUN ORACLE`, sends nothing, closes the round and continues unless the reply is `q` |
| `ReducedLoop.OracleFailureBeforeAnyCommandCrashes` | reduced.py:160 | An oracle failure before any command ran reads the unbound `output` and raises |
| `ReducedLoop.CompletedCommandRound` | reduced.py:164-191 | A command round sends the wrapped command, writes a failure record iff the exit code is non-zero, asks the human iff it also escalates (exit `-1` or "critical error" in the lower-cased output), aborts iff the reply is ABORT, and otherwise records the suggestion |
| `ReducedLoop.HumanReplyRecordedNotExecuted` | reduced.py:179-190 | A non-ABORT human reply is not executed: it becomes `last_command` with the failed command's output as `last_output`, and the only command sent is the failed one |
| `ReducedLoop.OtherSentinelIsACommand` | reduced.py:148 | The sentinel test is exact: `RUN ORACLE TESTS` is sent to the sandbox as a command |
| `ReducedLoop.RunAppendOnly` | reduced.py:131-193 | Over any run, `context`, the sent commands and the `write_failure_mode` calls only grow, and every new command is `bash -c` + quote(venv prefix + x) for a normalised non-sentinel `x` |
| `ReducedLoop.SessionContextStartsWithSeed` | reduced.py:131-165 | A whole session's context starts with the seed, and every command sent is well formed |
| `InstallerLoop.CompleteInstallation` | installer.py:142-202 | The loop as written yields the outcome and final state of `Run`, never ends as installed, and always stops then removes the container |
| `InstallerLoop.ExecuteWithTimeout` | installer.py:18-36 | A command with no result in time gives `(-1, "Command timed out")`; a finished one gives its exit code and output |
| `InstallerLoop.TimeoutEscalates` | installer.py:176-187 | A timed-out command always goes to the human: ABORT ends the session, any other reply becomes `last_command` with output "Command timed out" |
| `InstallerLoop.FinishedCommandRound` | installer.py:173-191 | A command round issues `bash -c quote(cmd)` in `/repos/<repo_name>`, sends nothing else in the round, asks the human iff the command failed and escalates, aborts iff the reply is ABORT, records any other reply as `last_command` with the command's output without running it, and otherwise records the suggestion |
| `InstallerLoop.OracleConsultation` | installer.py:162-171 | Consulting the oracle raises exactly when the dispatch raised or the first stats lack an error key; with no stats the round records the "no messages" failure and goes on |
| `InstallerLoop.CleanStatsCrashTheInstaller` | installer.py:57-64 | Where the variants part: an output that is success for reduced.py but has stats ends installer.py's loop with an exception |
| `InstallerLoop.NeverInstalled` | installer.py:162-171 | No sequence of collaborator answers ends `complete_installation` as installed |
| `InstallerLoop.RunAppendOnly` | installer.py:152-193 | Over any run the context only grows, and every execution is `bash -c quote(x)` in `/repos/<repo_name>` for a normalised non-sentinel `x` |
| `InstallerLoop.SeedNamesWorkdir` | installer.py:152 | The directory the seed of `context` names, `/repos/{repo_name}`, is the working directory every command runs in (installer.py:22) |
| `InstallerLoop.SessionWellFormed` | installer.py:152-174 | A whole session's context starts with the seed, and every execution is well formed |
| `RepoIds.DeriveIds` | reduced.py:232-235 | A URL without `/` has no author; otherwise the name and the author are `/`-free segments |
| `RepoIds.DeriveFromUrl` | reduced.py:232-235 | For `.../<author>/<name>` the derived name, author, id `<author>___<name>` and image `r2e:temp_<name>` are exactly those |
| `RepoIds.ConvertBackRepoFormat` | classify.py:11-13 | The converted URL starts with `https://github.com/` |
| `RepoIds.ConvertBackJoined` | classify.py:11-13 | The id `author___name` converts to the prefix + author + `/` + name when only the separator matches |
| `RepoIds.RoundTrip` | classify.py:12 | `convert_back_repo_format` inverts the id `install_repo` builds from `https://github.com/<author>/<name>` |
| `RepoIds.AuthorEndingInUnderscoreBreaksRoundTrip` | classify.py:13 | The round trip fails for an author ending in `_`: `a____b` converts to `a/_b` |
| `Classify.ParseLogFile` | classify.py:15-46 | `successes` counts every success match, duplicates included, while the success set may be smaller; the groups are the fold of the error matches; `fails` is the sum of the group lengths and at most the number of matches; keys are labelled with the lengths |
| `Classify.CollectSuccesses` | classify.py:27-31 | The success loop counts every match and leaves `success_groups` as the set of converted URLs, never larger than the count |
| `Classify.CollectErrors` | classify.py:33-40 | The error loop yields the well-formed groups of the fold over the matches, and a failure count equal to the number of URLs listed, at most one per match |
| `Classify.GroupsMembership` | classify.py:27-40 | A URL is listed under a type iff it is not a success, wherever the success appears in the log, and some error match names it with that stripped type |
| `Classify.AddError` | classify.py:34-40 | A success is never added; otherwise the URL ends up listed under its stripped type; a URL already listed there leaves the groups as they were; every other type's list is untouched |
| `Classify.AddErrorStep` | classify.py:33-40 | One error match keeps the groups duplicate-free and non-empty, and grows the total by one exactly when it is appended |
| `Classify.DedupIsPerType` | classify.py:38-40 | A repository already under one type is still added under another, and the first list is untouched |
| `Classify.SuccessUrlsMembership` | classify.py:27-31 | A URL is in `success_groups` iff some success match converts to it |
| `Classify.LabelsDistinct` | classify.py:44 | Distinct error types get distinct `"<type> (<n>)"` labels, so the comprehension loses no group |
| `SelfEquiv.Fut.UpdateExecStats` | r2e/execution/run_self_equiv.py:38-49 | Each call is logged in `statsUpdates` after the earlier ones, and nothing else of the fut changes |
| `SelfEquiv.GetService` | r2e/execution/run_self_equiv.py:18-28 | It raises iff the simulator or the connect raised; a failed connect stops the simulator once before re-raising |
| `SelfEquiv.RunFutWithPort` | r2e/execution/run_self_equiv.py:31-51 | A service failure records `{"error": repr(e)}` and reports `(False, repr(e))`; a raise of `self_equiv_futs` records and reports its traceback; after a connect the simulator is stopped and the connection closed once on both paths |
| `SelfEquiv.RecordMatchesReport` | r2e/execution/run_self_equiv.py:34-51 | At most one error is recorded, and a recorded error is exactly the message reported with `False` |
| `SelfEquiv.EscapesOnlyFromCleanup` | r2e/execution/run_self_equiv.py:40-47 | Only a raising `conn.close()` lets an exception out of `run_fut_with_port`; `stop_container` catches its own exceptions |
| `SelfEquiv.RunSelfEquiv` | r2e/execution/run_self_equiv.py:60-117 | With `execution_multiprocess != 0` it divides by zero before touching any fut; otherwise every fut runs on `exec_args.port`, gets its own records, and `<testgen_exp_id>_out.json` receives the futs that reported, in order |
| `SelfEquiv.KeptIsSubsequence` | r2e/execution/run_self_equiv.py:77-100 | `new_futs` takes the futs at strictly increasing positions, exactly those whose call did not raise |
| `ExtractFuncs.FileSystem.RemoveBomFromFile` | r2e/repo_builder/extract_func_methods.py:11-16 | A file starting with EF BB BF is rewritten as `content[3:]`; any other file is neither rewritten nor changed |
| `ExtractFuncs.BomRemovedOnce` | r2e/repo_builder/extract_func_methods.py:14-15 | Exactly one mark is removed per call, even from a file that starts with two |
| `ExtractFuncs.StripBomUnchangedIff` | r2e/repo_builder/extract_func_methods.py:14 | The content is unchanged iff it does not start with the mark |
| `ExtractFuncs.FileSystem.RemoveBomFromDirectory` | r2e/repo_builder/extract_func_methods.py:19-24 | After the walk every `.py` file below the directory has lost a leading mark, nothing else changed, and the files written are exactly the `.py` files below it that had one |
| `ExtractFuncs.FileSystem.VisitFile` | r2e/repo_builder/extract_func_methods.py:21-24 | One visited file: a `.py` file loses its leading mark and is written iff it had one; any other file is left alone; the directories are unchanged |
| `ExtractFuncs.OnlyPythonFilesBelowChange` | r2e/repo_builder/extract_func_methods.py:23-24 | Only `.py` files below the directory that started with the mark can change |
| `ExtractFuncs.FileSystem.StripRepoDirs` | r2e/repo_builder/extract_func_methods.py:44-46 | Every `.py` file below some `dir*` repository directory has lost its mark |
| `ExtractFuncs.FileSystem.BuildFunctionsAndMethods` | r2e/repo_builder/extract_func_methods.py:27-71 | An existing extraction file without `overwrite_extracted` is left alone and nothing is written; otherwise marks are stripped and the file receives all functions then all methods |
| `ExtractFuncs.FileSystem.MakeExtractionRepo` | r2e/repo_builder/extract_func_methods.py:29-31 | A missing `REPOS_DIR/dir_<name>/extracted_data` is created with its parents; an existing one leaves the directories as they were; files and writes are untouched |
| `ExtractFuncs.RepoNameOfUrl` | r2e/repo_builder/extract_func_methods.py:28 | `repo_name` is the URL's last `/` segment |
| `ExtractFuncs.ExtractionPath` | r2e/repo_builder/extract_func_methods.py:29-33 | The output path lies in `REPOS_DIR/dir_<name>/extracted_data` and ends with `_extracted.json` |
| `ExtractFuncs.ExtractionPathIsNotPython` | r2e/repo_builder/extract_func_methods.py:33 | The extraction file is not a `.py` file, so stripping marks never touches it |
| `ExtractFuncs.CollectExtractions` | r2e/repo_builder/extract_func_methods.py:61-69 | The loop accumulates all functions and all methods of the successful outputs, in output order |
| `ExtractFuncs.FailedContributesNothing` | r2e/repo_builder/extract_func_methods.py:62-67 | A failed extraction contributes nothing, wherever it comes |
| `ExtractFuncs.CollectedFunctions` | r2e/repo_builder/extract_func_methods.py:61-65 | A function is collected iff some successful output found it |

## Left out

- The Docker SDK, `DockerSimulator`, `rpyc.connect` and the OpenAI call are foreign libraries and the network. Their answers are the scripted input sequences or abstract outcomes (`SimResult`, `ExecResult`, `OracleRun`, `ServiceAttempt`, `EquivRun`).
- `installation_oracle`'s dispatch is abstract (`OracleRun`). As written, reduced.py:83 passes three arguments to `run_self_equiv`, which takes two. The model lets a consultation either produce an output list or raise.
- The prompt text of `llm_suggest_next_command` is not modelled. Its f-string reads `repo_name` (installer.py:119), which is not a parameter; it resolves to the module global that only the `__main__` block sets (installer.py:209).
- The thread and queue of `execute_command_with_timeout` are concurrency. Only its result contract is kept: `(-1, "Command timed out")` when nothing arrives in time.
- `write_failure_mode` is an opaque event: the model records the `(image, command, output)` of each call. Its file handling is not modelled. Its existence check omits `failures/` (reduced.py:33), so it normally takes the `"w"` branch and truncates the file to the latest record, and its `"a"` branch reads an undefined `bash_command` (reduced.py:42). The failure records of the model are the calls, not the file's contents.
- The console prompts `input()` are the human and "continue?" reply sequences. Printing is not modelled.
- `shlex.quote` is an uninterpreted function parameter. The regular expressions of classify.py are replaced by their match sequences.
- JSON loading and writing: the model starts from parsed datatypes, and the JSON encoder of `write_functions` is a function parameter.
- classify.py's `__main__`: the float rounding of the success rate and the summary file.
- The multiprocess branch of `run_self_equiv` is dead after `1/0`, and `run_fut_mp`. The parallel extraction of `build_functions_and_methods` is given as its list of outputs.
- setup_installer.py, new_para.py, r2e/paths.py and r2e/oracle.py are glue. They are not part of this model.
- `StringUtils.Lower`: models only the ASCII letters of Python's Unicode `str.lower`, so "critical error" matching and the `q` test ignore non-ASCII case mappings.
- `StringUtils.Upper`: models only the ASCII letters of Python's `str.upper`, so the ABORT test ignores non-ASCII case mappings (such as `ß` becoming `SS`).
- `ExtractFuncs.FileSystem.RemoveBomFromDirectory`: `os.walk` visits files in an order the model leaves open. The files are picked in any order, and the contract states the set of writes, not their order.
- `InstallerLoop.CompleteInstallation`: the output of a command that finished is taken as already decoded. A non-UTF-8 output, which would raise in `.decode`, is not modelled.
- `ReducedLoop.AgenticLoop`: the simulator's output of a completed command is taken as already decoded. A non-UTF-8 output, which would raise in `.decode('utf-8')` at reduced.py:167 and end the loop with one `stop_container` call, is not modelled.
- `InstallerLoop.CompleteInstallation`: the Docker calls `container.stop()` and `container.remove()` of the `finally` clause (installer.py:200-202) are taken not to raise. A raising `stop()` would skip `remove()`, and that case is not modelled.
- `SelfEquiv.RunFutWithPort`: a fut's `statsUpdates` holds only the records `run_fut_with_port` itself makes. Whatever `self_equiv_futs` records in the fut's history is not part of this model, so "at most one record" is about `run_fut_with_port`'s own records.
- `SelfEquiv.Fut.UpdateExecStats`: `update_exec_stats` belongs to the test-history class, which is not part of this model. The model logs the calls in order; what a call does to the history is unknown here.
- `ExecStatus`: a `test_history` or `history` that is present but JSON `null` makes the chained `.get` or the loop raise (reduced.py:57-59, installer.py:50-52). The model's optional fields stand only for a missing key, so such input is not represented.
