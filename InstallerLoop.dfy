/**
 * `complete_installation` of installer.py: the same repair loop as
 * reduced.py's, with the sentinel "RUN ORACLE TESTS", commands run in the
 * repository's directory under a 60-second wait, no failure log, and the
 * oracle reduced by installer.py's own `check_execution_status`.
 *
 * As in `ReducedLoop`, every collaborator is a scripted sequence of replies;
 * `Step` and `Run` are the specification and `CompleteInstallation` the loop
 * as written, proved equal to `Run`.
 */
module InstallerLoop {
  import opened Wrappers
  import opened StringUtils
  import opened ExecStatus
  import opened Commands
  import opened LoopCommon

  /** What a command handed to `execute_command_with_timeout` comes to. */
  datatype ExecResult =
    | Finished(exitCode: int, raw: string)   // the worker thread queued exec_run's result in time
    | NoResultInTime                         // nothing queued within the timeout (a slow or failed exec_run)

  const TimeoutExitCode: int := -1
  const TimeoutOutput: string := "Command timed out"

  /** An `exec_run` call: the wrapped command and its working directory. */
  datatype Exec = Exec(command: string, workdir: string)

  /** The container calls made by the `finally` clause. */
  datatype Cleanup = StopContainer | RemoveContainer

  datatype Inputs = Inputs(
    suggestions: seq<string>,   // the language model's raw answers
    results: seq<ExecResult>,   // what each command execution comes to
    oracles: seq<OracleRun>,    // each consultation: the output file run_self_equiv wrote, or a raise
    humans: seq<string>,        // the human's replies
    continues: seq<string>)     // the replies to "continue or 'q'"

  datatype State = State(t: Transcript, sent: seq<Exec>)

  datatype StepResult = Continue(state: State, rest: Inputs) | Stop(outcome: Outcome, final: State)

  function Initial(imageName: string, repoName: string): State {
    State(InitialTranscript(imageName, repoName), [])
  }

  function StateAfter(r: StepResult): State {
    if r.Continue? then r.state else r.final
  }

  /**
   * `execute_command_with_timeout`: the exit code and decoded output, or
   * `(-1, "Command timed out")` when nothing arrived in time.
   */
  function ExecuteWithTimeout(r: ExecResult): (res: (int, string))
    ensures r.NoResultInTime? ==> res == (TimeoutExitCode, TimeoutOutput)
    ensures r.Finished? ==> res == (r.exitCode, r.raw)
  {
    match r
    case Finished(code, out) => (code, out)
    case NoResultInTime => (TimeoutExitCode, TimeoutOutput)
  }

  function EndRound(s: State, inputs: Inputs): (r: StepResult)
    ensures r.Continue? ==> r.rest.suggestions == inputs.suggestions
  {
    var s' := s.(t := CloseRound(s.t));
    if inputs.continues == [] then Stop(InputExhausted, s')
    else if IsQuit(inputs.continues[0]) then Stop(UserQuit, s')
    else Continue(s', inputs.(continues := inputs.continues[1..]))
  }

  /**
   * `oracle_result, message = installation_oracle(container)`.  A raise in
   * `run_self_equiv` escapes the oracle; a raise in `check_execution_status`
   * is caught there and turned into a string, whose unpacking into two names
   * raises in the loop.  Either way the loop ends by an exception.
   */
  function OracleRound(s: State, inputs: Inputs): (r: StepResult)
    ensures r.Continue? ==> r.rest.suggestions == inputs.suggestions
  {
    if inputs.oracles == [] then Stop(InputExhausted, s)
    else
      var rest := inputs.(oracles := inputs.oracles[1..]);
      match inputs.oracles[0]
      case DispatchRaised => Stop(Crashed(OracleRaised), s)
      case Dispatched(items) =>
        match InstallerOutcome(items)
        case RaisedAttributeError => Stop(Crashed(OracleRaised), s)
        case Returned(v) =>
          var s1 := s.(t := AfterOracle(s.t, InstallerSentinel, v));
          if v.success then Stop(Installed, s1) else EndRound(s1, rest)
  }

  function CommandRound(repoName: string, quote: string -> string, next: string, s: State, inputs: Inputs): (r: StepResult)
    ensures r.Continue? ==> r.rest.suggestions == inputs.suggestions
  {
    if inputs.results == [] then Stop(InputExhausted, s)
    else
      var s1 := s.(sent := s.sent + [Exec(InstallerCommand(quote, next), InstallerWorkdir(repoName))]);
      var rest := inputs.(results := inputs.results[1..]);
      var res := ExecuteWithTimeout(inputs.results[0]);
      var code, out := res.0, res.1;
      if code == 0 || !Escalates(code, out) then EndRound(s1.(t := AfterCommand(s1.t, next, out)), rest)
      else if rest.humans == [] then Stop(InputExhausted, s1)
      else if IsAbort(rest.humans[0]) then Stop(HumanAborted, s1)
      else EndRound(s1.(t := AfterCommand(s1.t, rest.humans[0], out)), rest.(humans := rest.humans[1..]))
  }

  function Step(repoName: string, quote: string -> string, s: State, inputs: Inputs): (r: StepResult)
    ensures r.Continue? ==> |inputs.suggestions| > 0 && r.rest.suggestions == inputs.suggestions[1..]
  {
    if inputs.suggestions == [] then Stop(InputExhausted, s)
    else
      var next := Normalise(inputs.suggestions[0]);
      var rest := inputs.(suggestions := inputs.suggestions[1..]);
      if next == InstallerSentinel then OracleRound(s, rest)
      else CommandRound(repoName, quote, next, s, rest)
  }

  function Run(repoName: string, quote: string -> string, s: State, inputs: Inputs): (Outcome, State)
    decreases |inputs.suggestions|
  {
    match Step(repoName, quote, s, inputs)
    case Stop(outcome, final) => (outcome, final)
    case Continue(s', rest) => Run(repoName, quote, s', rest)
  }

  /** An `exec_run` the loop may issue: a normalised, non-sentinel suggestion, in the repository's directory. */
  ghost predicate WellFormedExec(repoName: string, quote: string -> string, e: Exec) {
    e.workdir == InstallerWorkdir(repoName) &&
    exists x :: e.command == InstallerCommand(quote, x) && '`' !in x && '\n' !in x && x != InstallerSentinel
  }

  ghost predicate SentFrom(repoName: string, quote: string -> string, sent: seq<Exec>, from: nat) {
    forall k :: from <= k < |sent| ==> WellFormedExec(repoName, quote, sent[k])
  }

  lemma EndRoundAppendOnly(s: State, inputs: Inputs)
    ensures var s' := StateAfter(EndRound(s, inputs));
      Extends(s'.t.context, s.t.context) && s'.sent == s.sent
  {
  }

  lemma CommandRoundAppendOnly(repoName: string, quote: string -> string, next: string, s: State, inputs: Inputs)
    ensures var s' := StateAfter(CommandRound(repoName, quote, next, s, inputs));
      Extends(s'.t.context, s.t.context) &&
      (s'.sent == s.sent || s'.sent == s.sent + [Exec(InstallerCommand(quote, next), InstallerWorkdir(repoName))])
  {
    assert Extends(s.t.context, s.t.context);
    if inputs.results != [] {
      var s1 := s.(sent := s.sent + [Exec(InstallerCommand(quote, next), InstallerWorkdir(repoName))]);
      var rest := inputs.(results := inputs.results[1..]);
      var res := ExecuteWithTimeout(inputs.results[0]);
      var code, out := res.0, res.1;
      if code == 0 || !Escalates(code, out) {
        EndRoundAppendOnly(s1.(t := AfterCommand(s1.t, next, out)), rest);
      } else if rest.humans != [] && !IsAbort(rest.humans[0]) {
        EndRoundAppendOnly(s1.(t := AfterCommand(s1.t, rest.humans[0], out)), rest.(humans := rest.humans[1..]));
      }
    }
  }

  lemma OracleRoundAppendOnly(s: State, inputs: Inputs)
    ensures var s' := StateAfter(OracleRound(s, inputs));
      Extends(s'.t.context, s.t.context) && s'.sent == s.sent
  {
    assert Extends(s.t.context, s.t.context);
    if inputs.oracles != [] && inputs.oracles[0].Dispatched? {
      var o := InstallerOutcome(inputs.oracles[0].output);
      if o.Returned? && !o.verdict.success {
        EndRoundAppendOnly(s.(t := AfterOracle(s.t, InstallerSentinel, o.verdict)), inputs.(oracles := inputs.oracles[1..]));
      }
    }
  }

  /** A round only appends to `context` and to the executions; what it appends is well formed. */
  lemma StepAppendOnly(repoName: string, quote: string -> string, s: State, inputs: Inputs)
    ensures var s' := StateAfter(Step(repoName, quote, s, inputs));
      Extends(s'.t.context, s.t.context) && Extends(s'.sent, s.sent) && SentFrom(repoName, quote, s'.sent, |s.sent|)
  {
    var s' := StateAfter(Step(repoName, quote, s, inputs));
    assert Extends(s.sent, s.sent) && Extends(s.t.context, s.t.context);
    if inputs.suggestions != [] {
      var next := Normalise(inputs.suggestions[0]);
      var rest := inputs.(suggestions := inputs.suggestions[1..]);
      if next == InstallerSentinel {
        StepToOracle(repoName, quote, s, inputs);
        OracleRoundAppendOnly(s, rest);
      } else {
        StepToCommand(repoName, quote, s, inputs);
        CommandRoundAppendOnly(repoName, quote, next, s, rest);
        if s'.sent != s.sent {
          SentOne(repoName, quote, s.sent, next);
        }
      }
    }
  }

  /** Running one normalised, non-sentinel suggestion keeps the executions well formed. */
  lemma SentOne(repoName: string, quote: string -> string, sent: seq<Exec>, next: string)
    requires '`' !in next && '\n' !in next && next != InstallerSentinel
    ensures SentFrom(repoName, quote, sent + [Exec(InstallerCommand(quote, next), InstallerWorkdir(repoName))], |sent|)
  {
    var e := Exec(InstallerCommand(quote, next), InstallerWorkdir(repoName));
    assert WellFormedExec(repoName, quote, e);
    forall k | |sent| <= k < |sent + [e]| ensures WellFormedExec(repoName, quote, (sent + [e])[k]) {
      assert k == |sent|;
    }
  }

  lemma {:induction false} RunAppendOnly(repoName: string, quote: string -> string, s: State, inputs: Inputs)
    ensures var s' := Run(repoName, quote, s, inputs).1;
      Extends(s'.t.context, s.t.context) && Extends(s'.sent, s.sent) && SentFrom(repoName, quote, s'.sent, |s.sent|)
    decreases |inputs.suggestions|
  {
    var r := Step(repoName, quote, s, inputs);
    StepAppendOnly(repoName, quote, s, inputs);
    if r.Continue? {
      var s1 := r.state;
      RunAppendOnly(repoName, quote, s1, r.rest);
      var s' := Run(repoName, quote, s1, r.rest).1;
      assert Run(repoName, quote, s, inputs).1 == s';
      ExtendsTrans(s.t.context, s1.t.context, s'.t.context);
      ExtendsTrans(s.sent, s1.sent, s'.sent);
      forall k | |s.sent| <= k < |s'.sent| ensures WellFormedExec(repoName, quote, s'.sent[k]) {
        if k < |s1.sent| {
          assert s'.sent[k] == s'.sent[..|s1.sent|][k];
        }
      }
    }
  }

  /**
   * The directory the seed of `context` names, `/repos/{repo_name}`, is the
   * working directory every command runs in.
   */
  lemma SeedNamesWorkdir(imageName: string, repoName: string)
    ensures EndsWith(Seed(imageName, repoName), InstallerWorkdir(repoName))
  {
    var seed := Seed(imageName, repoName);
    var w := InstallerWorkdir(repoName);
    var head := "Docker image: " + imageName + ". Partially-installed repo can be found at: ";
    assert seed == head + w;
    assert seed[|seed| - |w|..] == w;
  }

  /**
   * A whole session: `context` begins with the seed, and every execution is
   * `"bash -c " + quote(x)` for a normalised suggestion `x` other than the
   * sentinel, run in `/repos/<repo_name>`.
   */
  lemma SessionWellFormed(imageName: string, repoName: string, quote: string -> string, inputs: Inputs)
    ensures var s' := Run(repoName, quote, Initial(imageName, repoName), inputs).1;
      StartsWith(s'.t.context, Seed(imageName, repoName)) &&
      forall e :: e in s'.sent ==> WellFormedExec(repoName, quote, e)
  {
    RunAppendOnly(repoName, quote, Initial(imageName, repoName), inputs);
  }

  /**
   * The installer never ends a session as installed, whatever the language
   * model, the commands, the oracle and the human do: its reduction of the
   * oracle's output cannot report success.
   */
  lemma {:induction false} NeverInstalled(repoName: string, quote: string -> string, s: State, inputs: Inputs)
    ensures Run(repoName, quote, s, inputs).0 != Installed
    decreases |inputs.suggestions|
  {
    var r := Step(repoName, quote, s, inputs);
    StepNeverInstalled(repoName, quote, s, inputs);
    if r.Continue? {
      NeverInstalled(repoName, quote, r.state, r.rest);
    }
  }

  lemma StepNeverInstalled(repoName: string, quote: string -> string, s: State, inputs: Inputs)
    ensures var r := Step(repoName, quote, s, inputs);
      !(r.Stop? && r.outcome == Installed)
  {
    if inputs.suggestions != [] {
      var rest := inputs.(suggestions := inputs.suggestions[1..]);
      if Normalise(inputs.suggestions[0]) == InstallerSentinel {
        StepToOracle(repoName, quote, s, inputs);
        OracleRoundNotInstalled(s, rest);
      } else {
        StepToCommand(repoName, quote, s, inputs);
        CommandRoundNotInstalled(repoName, quote, Normalise(inputs.suggestions[0]), s, rest);
      }
    }
  }

  lemma OracleRoundNotInstalled(s: State, inputs: Inputs)
    ensures var r := OracleRound(s, inputs);
      !(r.Stop? && r.outcome == Installed)
  {
    if inputs.oracles != [] && inputs.oracles[0].Dispatched? {
      InstallerNeverSucceeds(inputs.oracles[0].output);
    }
  }

  lemma CommandRoundNotInstalled(repoName: string, quote: string -> string, next: string, s: State, inputs: Inputs)
    ensures var r := CommandRound(repoName, quote, next, s, inputs);
      !(r.Stop? && r.outcome == Installed)
  {
  }

  /**
   * Consulting the oracle either raises or goes on to the continue prompt
   * with the verdict's message; it raises exactly when the dispatch raised or
   * the first `exec_stats` present has no `"error"` key.
   */
  lemma OracleConsultation(repoName: string, quote: string -> string, s: State, inputs: Inputs)
    requires |inputs.suggestions| > 0 && Normalise(inputs.suggestions[0]) == InstallerSentinel
    requires |inputs.oracles| > 0
    ensures var r := Step(repoName, quote, s, inputs);
      var o := inputs.oracles[0];
      (r == Stop(Crashed(OracleRaised), s) <==>
         o.DispatchRaised? ||
         (FirstStats(Entries(o.output)).Some? && ErrorKey !in FirstStats(Entries(o.output)).value))
    ensures var r := Step(repoName, quote, s, inputs);
      var o := inputs.oracles[0];
      o.Dispatched? && FirstStats(Entries(o.output)).None? ==>
        StateAfter(r).t == CloseRound(AfterOracle(s.t, InstallerSentinel, Verdict(false, Some(NoMessages))))
  {
    var rest := inputs.(suggestions := inputs.suggestions[1..]);
    StepToOracle(repoName, quote, s, inputs);
    OracleRoundOutcome(s, rest);
  }

  lemma StepToOracle(repoName: string, quote: string -> string, s: State, inputs: Inputs)
    requires |inputs.suggestions| > 0 && Normalise(inputs.suggestions[0]) == InstallerSentinel
    ensures Step(repoName, quote, s, inputs) == OracleRound(s, inputs.(suggestions := inputs.suggestions[1..]))
  {
  }

  lemma StepToCommand(repoName: string, quote: string -> string, s: State, inputs: Inputs)
    requires |inputs.suggestions| > 0 && Normalise(inputs.suggestions[0]) != InstallerSentinel
    ensures Step(repoName, quote, s, inputs) ==
      CommandRound(repoName, quote, Normalise(inputs.suggestions[0]), s, inputs.(suggestions := inputs.suggestions[1..]))
  {
  }

  lemma OracleRoundOutcome(s: State, inputs: Inputs)
    requires |inputs.oracles| > 0
    ensures var r := OracleRound(s, inputs);
      var o := inputs.oracles[0];
      (r == Stop(Crashed(OracleRaised), s) <==>
         o.DispatchRaised? ||
         (FirstStats(Entries(o.output)).Some? && ErrorKey !in FirstStats(Entries(o.output)).value))
    ensures var r := OracleRound(s, inputs);
      var o := inputs.oracles[0];
      o.Dispatched? && FirstStats(Entries(o.output)).None? ==>
        StateAfter(r).t == CloseRound(AfterOracle(s.t, InstallerSentinel, Verdict(false, Some(NoMessages))))
  {
    if inputs.oracles[0].Dispatched? {
      VariantsCompared(inputs.oracles[0].output);
    }
  }

  /**
   * Where the two variants part: an oracle output whose first `exec_stats` is
   * free of errors everywhere is success for reduced.py and ends installer.py
   * with an exception.
   */
  lemma CleanStatsCrashTheInstaller(repoName: string, quote: string -> string, s: State, inputs: Inputs)
    requires |inputs.suggestions| > 0 && Normalise(inputs.suggestions[0]) == InstallerSentinel
    requires |inputs.oracles| > 0 && inputs.oracles[0].Dispatched?
    requires FirstStats(Entries(inputs.oracles[0].output)).Some?
    requires ReducedVerdict(inputs.oracles[0].output).success
    ensures Step(repoName, quote, s, inputs) == Stop(Crashed(OracleRaised), s)
  {
    var items := inputs.oracles[0].output;
    FirstStatsDecides(Entries(items));
    VariantsCompared(items);
  }

  /** A command that timed out always goes to the human, whatever the output was. */
  lemma TimeoutEscalates(repoName: string, quote: string -> string, s: State, inputs: Inputs)
    requires |inputs.suggestions| > 0 && Normalise(inputs.suggestions[0]) != InstallerSentinel
    requires |inputs.results| > 0 && inputs.results[0].NoResultInTime?
    ensures var r := Step(repoName, quote, s, inputs);
      (inputs.humans == [] ==> r.Stop? && r.outcome == InputExhausted) &&
      (inputs.humans != [] && IsAbort(inputs.humans[0]) ==> r.Stop? && r.outcome == HumanAborted) &&
      (inputs.humans != [] && !IsAbort(inputs.humans[0]) ==>
         StateAfter(r).t == CloseRound(AfterCommand(s.t, inputs.humans[0], TimeoutOutput)))
  {
    StepToCommand(repoName, quote, s, inputs);
    TimedOutCommandRound(repoName, quote, Normalise(inputs.suggestions[0]), s,
                         inputs.(suggestions := inputs.suggestions[1..]));
  }

  lemma TimedOutCommandRound(repoName: string, quote: string -> string, next: string, s: State, inputs: Inputs)
    requires |inputs.results| > 0 && inputs.results[0].NoResultInTime?
    ensures var r := CommandRound(repoName, quote, next, s, inputs);
      (inputs.humans == [] ==> r.Stop? && r.outcome == InputExhausted) &&
      (inputs.humans != [] && IsAbort(inputs.humans[0]) ==> r.Stop? && r.outcome == HumanAborted) &&
      (inputs.humans != [] && !IsAbort(inputs.humans[0]) ==>
         StateAfter(r).t == CloseRound(AfterCommand(s.t, inputs.humans[0], TimeoutOutput)))
  {
    var res := ExecuteWithTimeout(inputs.results[0]);
    assert res.0 == TimeoutExitCode && Escalates(res.0, res.1);
  }

  /**
   * A finished command: it is issued in the repository's directory and is
   * the only execution of the round; the human is asked iff it failed and
   * escalates; a reply other than ABORT is recorded as `last_command` with
   * the command's output, never run; otherwise the suggestion and its
   * output are recorded.
   */
  lemma FinishedCommandRound(repoName: string, quote: string -> string, s: State, inputs: Inputs)
    requires |inputs.suggestions| > 0 && Normalise(inputs.suggestions[0]) != InstallerSentinel
    requires |inputs.results| > 0 && inputs.results[0].Finished?
    requires |inputs.humans| > 0
    ensures var r := Step(repoName, quote, s, inputs);
      var next := Normalise(inputs.suggestions[0]);
      var code, out := inputs.results[0].exitCode, inputs.results[0].raw;
      var asks := code != 0 && Escalates(code, out);
      && StateAfter(r).sent == s.sent + [Exec(InstallerCommand(quote, next), InstallerWorkdir(repoName))]
      && (r.Continue? ==> r.rest.humans == if asks then inputs.humans[1..] else inputs.humans)
      && (r.Stop? && r.outcome == HumanAborted <==> asks && IsAbort(inputs.humans[0]))
      && (!asks ==> StateAfter(r).t == CloseRound(AfterCommand(s.t, next, out)))
      && (asks && !IsAbort(inputs.humans[0]) ==> StateAfter(r).t == CloseRound(AfterCommand(s.t, inputs.humans[0], out)))
  {
    StepToCommand(repoName, quote, s, inputs);
    FinishedCommandRoundOutcome(repoName, quote, Normalise(inputs.suggestions[0]), s,
                                inputs.(suggestions := inputs.suggestions[1..]));
  }

  lemma FinishedCommandRoundOutcome(repoName: string, quote: string -> string, next: string, s: State, inputs: Inputs)
    requires |inputs.results| > 0 && inputs.results[0].Finished?
    requires |inputs.humans| > 0
    ensures var r := CommandRound(repoName, quote, next, s, inputs);
      var code, out := inputs.results[0].exitCode, inputs.results[0].raw;
      var asks := code != 0 && Escalates(code, out);
      && StateAfter(r).sent == s.sent + [Exec(InstallerCommand(quote, next), InstallerWorkdir(repoName))]
      && (r.Continue? ==> r.rest.humans == if asks then inputs.humans[1..] else inputs.humans)
      && (r.Stop? && r.outcome == HumanAborted <==> asks && IsAbort(inputs.humans[0]))
      && (!asks ==> StateAfter(r).t == CloseRound(AfterCommand(s.t, next, out)))
      && (asks && !IsAbort(inputs.humans[0]) ==> StateAfter(r).t == CloseRound(AfterCommand(s.t, inputs.humans[0], out)))
  {
  }

  /**
   * `complete_installation` as written, over the scripted replies.  The
   * Docker calls of the `finally` clause, `container.stop()` then
   * `container.remove()`, are taken not to raise.
   */
  method CompleteInstallation(imageName: string, repoName: string, quote: string -> string, inputs: Inputs)
    returns (outcome: Outcome, final: State, ghost cleanup: seq<Cleanup>)
    ensures (outcome, final) == Run(repoName, quote, Initial(imageName, repoName), inputs)
    ensures outcome != Installed
    ensures cleanup == [StopContainer, RemoveContainer]
  {
    var context := Seed(imageName, repoName);
    var lastCommand := InitialCommand;
    var lastOutput := InitialOutput;
    var oracleResult := NotYetConsulted;
    var message := "";
    var sent: seq<Exec> := [];
    var suggestions, results, oracles, humans, continues :=
      inputs.suggestions, inputs.results, inputs.oracles, inputs.humans, inputs.continues;
    ghost var goal := Run(repoName, quote, Initial(imageName, repoName), inputs);
    NeverInstalled(repoName, quote, Initial(imageName, repoName), inputs);

    while true
      invariant Run(repoName, quote,
                    State(Transcript(context, lastCommand, lastOutput, oracleResult, message), sent),
                    Inputs(suggestions, results, oracles, humans, continues)) == goal
      decreases |suggestions|
    {
      if suggestions == [] {
        outcome := InputExhausted;
        break;
      }
      var nextCommand := Normalise(suggestions[0]);
      suggestions := suggestions[1..];
      if nextCommand == InstallerSentinel {
        if oracles == [] {
          outcome := InputExhausted;
          break;
        }
        var run := oracles[0];
        oracles := oracles[1..];
        if run.DispatchRaised? {
          outcome := Crashed(OracleRaised);
          break;
        }
        var checked := CheckExecutionStatusInstaller(run.output);
        if checked.RaisedAttributeError? {
          outcome := Crashed(OracleRaised);
          break;
        }
        oracleResult := Consulted(checked.verdict.success);
        message := ShowMessage(checked.verdict.message);
        lastCommand := nextCommand;
        lastOutput := OracleConsulted;
        if checked.verdict.success {
          outcome := Installed;
          break;
        }
      } else {
        if results == [] {
          outcome := InputExhausted;
          break;
        }
        sent := sent + [Exec(InstallerCommand(quote, nextCommand), InstallerWorkdir(repoName))];
        var res := ExecuteWithTimeout(results[0]);
        results := results[1..];
        var exitCode, output := res.0, res.1;
        if exitCode != 0 {
          if Escalates(exitCode, output) {
            if humans == [] {
              outcome := InputExhausted;
              break;
            }
            var humanCommand := humans[0];
            humans := humans[1..];
            if IsAbort(humanCommand) {
              outcome := HumanAborted;
              break;
            }
            nextCommand := humanCommand;
          }
        }
        lastCommand := nextCommand;
        lastOutput := output;
        message := OracleNotConsulted;
      }
      context := context + RoundText(Transcript(context, lastCommand, lastOutput, oracleResult, message));
      if continues == [] {
        outcome := InputExhausted;
        break;
      }
      var cont := continues[0];
      continues := continues[1..];
      if IsQuit(cont) {
        outcome := UserQuit;
        break;
      }
    }
    // finally: container.stop(); container.remove()
    cleanup := [StopContainer, RemoveContainer];
    final := State(Transcript(context, lastCommand, lastOutput, oracleResult, message), sent);
  }
}
