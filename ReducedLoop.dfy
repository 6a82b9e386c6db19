/**
 * `agentic_loop` of reduced.py: ask the proposer for a command, run it in
 * the simulator or consult the oracle, escalate to a human on a critical
 * failure, ask whether to continue, and always stop the container.
 *
 * The language model, the simulator, the oracle and the two console prompts
 * are collaborators whose answers are not computed here: each is a scripted
 * sequence of replies, consumed in order.  Because any sequence of replies is
 * possible, proving a property for all sequences proves it for every way the
 * collaborators may behave.  `Step` is one round as a function, `Run` the
 * whole loop; the method `AgenticLoop` is the loop as written and is proved
 * equal to `Run`.
 */
module ReducedLoop {
  import opened Wrappers
  import opened StringUtils
  import opened ExecStatus
  import opened Commands
  import opened LoopCommon

  /** What `simulator.run_single_command` returns. */
  datatype SimResult =
    | Completed(exitCode: int, raw: string)   // exec_run's exit code and its (bytes) output, decoded
    | ExecFailed                              // exec_run raised: the simulator stops its container and returns a str

  /** One line of `failures/<image_name>_failures.json`, as `write_failure_mode` is asked to write it. */
  datatype FailureRecord = FailureRecord(imageName: string, command: string, output: string)

  /** The replies of the collaborators, each consumed from the front. */
  datatype Inputs = Inputs(
    suggestions: seq<string>,   // the language model's raw answers
    results: seq<SimResult>,    // the simulator's results
    oracles: seq<OracleRun>,    // the oracle's consultations
    humans: seq<string>,        // the human's replies
    continues: seq<string>)     // the replies to "continue or 'q'"

  /** The loop's variables together with what it has done to the outside world. */
  datatype State = State(
    t: Transcript,
    output: Option<string>,        // the local `output`, unbound until a command ran
    sent: seq<string>,             // the commands handed to the simulator
    failures: seq<FailureRecord>)  // the calls of `write_failure_mode`

  datatype StepResult = Continue(state: State, rest: Inputs) | Stop(outcome: Outcome, final: State)

  function Initial(imageName: string, repoName: string): State {
    State(InitialTranscript(imageName, repoName), None, [], [])
  }

  /** The end of a round that did not break: extend `context`, then the continue prompt. */
  function EndRound(s: State, inputs: Inputs): (r: StepResult)
    ensures r.Continue? ==> r.rest.suggestions == inputs.suggestions
  {
    var s' := s.(t := CloseRound(s.t));
    if inputs.continues == [] then Stop(InputExhausted, s')
    else if IsQuit(inputs.continues[0]) then Stop(UserQuit, s')
    else Continue(s', inputs.(continues := inputs.continues[1..]))
  }

  /** The oracle branch (`next_command == "RUN ORACLE"`), after the suggestion was taken. */
  function OracleRound(imageName: string, s: State, inputs: Inputs): (r: StepResult)
    ensures r.Continue? ==> r.rest.suggestions == inputs.suggestions
  {
    if inputs.oracles == [] then Stop(InputExhausted, s)
    else
      var rest := inputs.(oracles := inputs.oracles[1..]);
      match inputs.oracles[0]
      case DispatchRaised => Stop(Crashed(OracleRaised), s)
      case Dispatched(items) =>
        var v := ReducedVerdict(items);
        var s1 := s.(t := AfterOracle(s.t, ReducedSentinel, v));
        if v.success then Stop(Installed, s1)
        else if s1.output.None? then Stop(Crashed(OutputUnbound), s1)
        else EndRound(s1.(failures := s1.failures + [FailureRecord(imageName, ReducedSentinel, s1.output.value)]), rest)
  }

  /** The command branch, after the suggestion `next` was taken. */
  function CommandRound(imageName: string, quote: string -> string, next: string, s: State, inputs: Inputs): (r: StepResult)
    ensures r.Continue? ==> r.rest.suggestions == inputs.suggestions
  {
    var command := ReducedCommand(quote, next);
    if inputs.results == [] then Stop(InputExhausted, s)
    else
      var s1 := s.(sent := s.sent + [command]);
      var rest := inputs.(results := inputs.results[1..]);
      match inputs.results[0]
      case ExecFailed => Stop(Crashed(DecodeOnStr), s1)
      case Completed(exitCode, out) =>
        var s2 := s1.(output := Some(out));
        if exitCode == 0 then EndRound(s2.(t := AfterCommand(s2.t, next, out)), rest)
        else
          var s3 := s2.(failures := s2.failures + [FailureRecord(imageName, command, out)]);
          if !Escalates(exitCode, out) then EndRound(s3.(t := AfterCommand(s3.t, next, out)), rest)
          else if rest.humans == [] then Stop(InputExhausted, s3)
          else if IsAbort(rest.humans[0]) then Stop(HumanAborted, s3)
          else EndRound(s3.(t := AfterCommand(s3.t, rest.humans[0], out)), rest.(humans := rest.humans[1..]))
  }

  /** One round of the `while True` loop. */
  function Step(imageName: string, quote: string -> string, s: State, inputs: Inputs): (r: StepResult)
    ensures r.Continue? ==> |inputs.suggestions| > 0 && r.rest.suggestions == inputs.suggestions[1..]
  {
    if inputs.suggestions == [] then Stop(InputExhausted, s)
    else
      var next := Normalise(inputs.suggestions[0]);
      var rest := inputs.(suggestions := inputs.suggestions[1..]);
      if next == ReducedSentinel then OracleRound(imageName, s, rest)
      else CommandRound(imageName, quote, next, s, rest)
  }

  /** The whole loop, up to the round that breaks. */
  function Run(imageName: string, quote: string -> string, s: State, inputs: Inputs): (Outcome, State)
    decreases |inputs.suggestions|
  {
    match Step(imageName, quote, s, inputs)
    case Stop(outcome, final) => (outcome, final)
    case Continue(s', rest) => Run(imageName, quote, s', rest)
  }

  /** A command the loop may hand to the simulator: a wrapped, normalised, non-sentinel suggestion. */
  ghost predicate WellFormedCommand(quote: string -> string, c: string) {
    exists x :: c == ReducedCommand(quote, x) && '`' !in x && '\n' !in x && x != ReducedSentinel
  }

  ghost predicate AppendOnly(before: State, after: State) {
    Extends(after.t.context, before.t.context) && Extends(after.sent, before.sent)
    && Extends(after.failures, before.failures)
  }

  /** The state a round leaves behind, whether the loop goes on or breaks. */
  function StateAfter(r: StepResult): State {
    if r.Continue? then r.state else r.final
  }

  lemma EndRoundAppendOnly(s: State, inputs: Inputs)
    ensures var s' := StateAfter(EndRound(s, inputs));
      AppendOnly(s, s') && s'.sent == s.sent
  {
    assert Extends(s.sent, s.sent) && Extends(s.failures, s.failures);
  }

  lemma OracleRoundAppendOnly(imageName: string, s: State, inputs: Inputs)
    ensures var s' := StateAfter(OracleRound(imageName, s, inputs));
      AppendOnly(s, s') && s'.sent == s.sent
  {
    assert Extends(s.sent, s.sent) && Extends(s.failures, s.failures) && Extends(s.t.context, s.t.context);
    if inputs.oracles != [] && inputs.oracles[0].Dispatched? {
      var v := ReducedVerdict(inputs.oracles[0].output);
      var s1 := s.(t := AfterOracle(s.t, ReducedSentinel, v));
      if !v.success && s1.output.Some? {
        var s2 := s1.(failures := s1.failures + [FailureRecord(imageName, ReducedSentinel, s1.output.value)]);
        assert Extends(s2.failures, s.failures);
        EndRoundAppendOnly(s2, inputs.(oracles := inputs.oracles[1..]));
        ExtendsTrans(s.failures, s2.failures, StateAfter(OracleRound(imageName, s, inputs)).failures);
      }
    }
  }

  lemma CommandRoundAppendOnly(imageName: string, quote: string -> string, next: string, s: State, inputs: Inputs)
    ensures var s' := StateAfter(CommandRound(imageName, quote, next, s, inputs));
      AppendOnly(s, s') && (s'.sent == s.sent || s'.sent == s.sent + [ReducedCommand(quote, next)])
  {
    var s' := StateAfter(CommandRound(imageName, quote, next, s, inputs));
    assert Extends(s.sent, s.sent) && Extends(s.failures, s.failures) && Extends(s.t.context, s.t.context);
    if inputs.results != [] && inputs.results[0].Completed? {
      var command := ReducedCommand(quote, next);
      var code, out := inputs.results[0].exitCode, inputs.results[0].raw;
      var rest := inputs.(results := inputs.results[1..]);
      var s2 := s.(sent := s.sent + [command], output := Some(out));
      assert Extends(s2.sent, s.sent);
      if code == 0 {
        EndRoundAppendOnly(s2.(t := AfterCommand(s2.t, next, out)), rest);
      } else {
        var s3 := s2.(failures := s2.failures + [FailureRecord(imageName, command, out)]);
        assert Extends(s3.failures, s.failures);
        if !Escalates(code, out) {
          EndRoundAppendOnly(s3.(t := AfterCommand(s3.t, next, out)), rest);
        } else if rest.humans != [] && !IsAbort(rest.humans[0]) {
          EndRoundAppendOnly(s3.(t := AfterCommand(s3.t, rest.humans[0], out)), rest.(humans := rest.humans[1..]));
        }
        ExtendsTrans(s.failures, s3.failures, s'.failures);
      }
      ExtendsTrans(s.sent, s2.sent, s'.sent);
    } else if inputs.results != [] {
      assert Extends(s.sent + [ReducedCommand(quote, next)], s.sent);
    }
  }

  /** A round with a suggestion is the oracle round for the sentinel and a command round otherwise. */
  lemma StepRound(imageName: string, quote: string -> string, s: State, inputs: Inputs)
    requires |inputs.suggestions| > 0
    ensures var next := Normalise(inputs.suggestions[0]);
      var rest := inputs.(suggestions := inputs.suggestions[1..]);
      Step(imageName, quote, s, inputs) ==
        if next == ReducedSentinel then OracleRound(imageName, s, rest) else CommandRound(imageName, quote, next, s, rest)
  {
  }

  /**
   * A round whose command makes the simulator fail ends the loop: the wrapped
   * command was sent, the `str` it returns raises on `.decode`, no failure
   * record is written and no human reply is read.
   */
  lemma SimulatorFailureCrashes(imageName: string, quote: string -> string, s: State, inputs: Inputs)
    requires |inputs.suggestions| > 0 && Normalise(inputs.suggestions[0]) != ReducedSentinel
    requires |inputs.results| > 0 && inputs.results[0].ExecFailed?
    ensures var r := Step(imageName, quote, s, inputs);
      r.Stop? && r.outcome == Crashed(DecodeOnStr) &&
      r.final == s.(sent := s.sent + [ReducedCommand(quote, Normalise(inputs.suggestions[0]))])
  {
    StepRound(imageName, quote, s, inputs);
  }

  /** A round only appends to the context, the sent commands and the failure records. */
  lemma StepAppendOnly(imageName: string, quote: string -> string, s: State, inputs: Inputs)
    ensures AppendOnly(s, StateAfter(Step(imageName, quote, s, inputs)))
    ensures SentFrom(quote, StateAfter(Step(imageName, quote, s, inputs)).sent, |s.sent|)
  {
    var s' := StateAfter(Step(imageName, quote, s, inputs));
    if inputs.suggestions == [] {
      assert Extends(s.sent, s.sent) && Extends(s.failures, s.failures) && Extends(s.t.context, s.t.context);
    } else {
      var next := Normalise(inputs.suggestions[0]);
      var rest := inputs.(suggestions := inputs.suggestions[1..]);
      StepRound(imageName, quote, s, inputs);
      if next == ReducedSentinel {
        OracleRoundAppendOnly(imageName, s, rest);
      } else {
        CommandRoundAppendOnly(imageName, quote, next, s, rest);
        if s'.sent != s.sent {
          SentOne(quote, s.sent, next);
        }
      }
    }
  }

  /** Sending one normalised, non-sentinel suggestion keeps the sent commands well formed. */
  lemma SentOne(quote: string -> string, sent: seq<string>, next: string)
    requires '`' !in next && '\n' !in next && next != ReducedSentinel
    ensures SentFrom(quote, sent + [ReducedCommand(quote, next)], |sent|)
  {
    var sent' := sent + [ReducedCommand(quote, next)];
    assert WellFormedCommand(quote, ReducedCommand(quote, next));
    forall k | |sent| <= k < |sent'| ensures WellFormedCommand(quote, sent'[k]) {
      assert k == |sent|;
    }
  }

  /** Every command in `sent` from index `from` on is well formed. */
  ghost predicate SentFrom(quote: string -> string, sent: seq<string>, from: nat) {
    forall k :: from <= k < |sent| ==> WellFormedCommand(quote, sent[k])
  }

  lemma SentFromTrans(quote: string -> string, a: seq<string>, b: seq<string>, c: seq<string>)
    requires Extends(b, a) && Extends(c, b)
    requires SentFrom(quote, b, |a|) && SentFrom(quote, c, |b|)
    ensures SentFrom(quote, c, |a|)
  {
    forall k | |a| <= k < |c| ensures WellFormedCommand(quote, c[k]) {
      if k < |b| {
        assert c[k] == c[..|b|][k];
      }
    }
  }

  /**
   * Over a whole session: `context` only grows from its seed, failure
   * records are only appended, and every command sent to the simulator is
   * `"bash -c " + quote("source .venv/bin/activate && " + x)` for a
   * normalised suggestion `x` that is not the sentinel.
   */
  lemma {:induction false} RunAppendOnly(imageName: string, quote: string -> string, s: State, inputs: Inputs)
    ensures AppendOnly(s, Run(imageName, quote, s, inputs).1)
    ensures SentFrom(quote, Run(imageName, quote, s, inputs).1.sent, |s.sent|)
    decreases |inputs.suggestions|
  {
    var r := Step(imageName, quote, s, inputs);
    StepAppendOnly(imageName, quote, s, inputs);
    if r.Continue? {
      var s1, rest := r.state, r.rest;
      RunAppendOnly(imageName, quote, s1, rest);
      var s' := Run(imageName, quote, s1, rest).1;
      assert Run(imageName, quote, s, inputs).1 == s';
      ExtendsTrans(s.t.context, s1.t.context, s'.t.context);
      ExtendsTrans(s.sent, s1.sent, s'.sent);
      ExtendsTrans(s.failures, s1.failures, s'.failures);
      SentFromTrans(quote, s.sent, s1.sent, s'.sent);
    }
  }

  /** A whole session started from the seed: its context begins with the seed. */
  lemma SessionContextStartsWithSeed(imageName: string, repoName: string, quote: string -> string, inputs: Inputs)
    ensures StartsWith(Run(imageName, quote, Initial(imageName, repoName), inputs).1.t.context, Seed(imageName, repoName))
    ensures forall c :: c in Run(imageName, quote, Initial(imageName, repoName), inputs).1.sent ==> WellFormedCommand(quote, c)
  {
    RunAppendOnly(imageName, quote, Initial(imageName, repoName), inputs);
  }

  /** The session ends as installed iff the suggestion is exactly the sentinel and the oracle's verdict is success. */
  lemma InstalledIff(imageName: string, quote: string -> string, s: State, inputs: Inputs)
    ensures (Step(imageName, quote, s, inputs).Stop? && Step(imageName, quote, s, inputs).outcome == Installed) <==>
      |inputs.suggestions| > 0 && Normalise(inputs.suggestions[0]) == ReducedSentinel &&
      |inputs.oracles| > 0 && inputs.oracles[0].Dispatched? && ReducedVerdict(inputs.oracles[0].output).success
  {
    if |inputs.suggestions| > 0 {
      var next := Normalise(inputs.suggestions[0]);
      var rest := inputs.(suggestions := inputs.suggestions[1..]);
      StepRound(imageName, quote, s, inputs);
      if next == ReducedSentinel {
        OracleRoundInstalledIff(imageName, s, rest);
      } else {
        CommandRoundNotInstalled(imageName, quote, next, s, rest);
      }
    }
  }

  lemma OracleRoundInstalledIff(imageName: string, s: State, inputs: Inputs)
    ensures var r := OracleRound(imageName, s, inputs);
      (r.Stop? && r.outcome == Installed) <==>
      |inputs.oracles| > 0 && inputs.oracles[0].Dispatched? && ReducedVerdict(inputs.oracles[0].output).success
  {
  }

  lemma CommandRoundNotInstalled(imageName: string, quote: string -> string, next: string, s: State, inputs: Inputs)
    ensures var r := CommandRound(imageName, quote, next, s, inputs);
      !(r.Stop? && r.outcome == Installed)
  {
  }

  /**
   * An oracle failure never ends the loop by itself: once a command has run
   * (so that `output` is bound), the failure is recorded and the loop goes on
   * to the continue prompt.
   */
  lemma OracleFailureContinues(imageName: string, quote: string -> string, s: State, inputs: Inputs)
    requires |inputs.suggestions| > 0 && Normalise(inputs.suggestions[0]) == ReducedSentinel
    requires |inputs.oracles| > 0 && inputs.oracles[0].Dispatched?
    requires !ReducedVerdict(inputs.oracles[0].output).success
    requires s.output.Some?
    requires |inputs.continues| > 0 && !IsQuit(inputs.continues[0])
    ensures var r := Step(imageName, quote, s, inputs);
      var v := ReducedVerdict(inputs.oracles[0].output);
      r.Continue? &&
      r.state.failures == s.failures + [FailureRecord(imageName, ReducedSentinel, s.output.value)] &&
      r.state.sent == s.sent &&
      r.state.t == CloseRound(AfterOracle(s.t, ReducedSentinel, v)) &&
      r.rest == inputs.(suggestions := inputs.suggestions[1..], oracles := inputs.oracles[1..], continues := inputs.continues[1..])
  {
  }

  /** Before any command ran, an oracle failure reads the unbound `output` and raises. */
  lemma OracleFailureBeforeAnyCommandCrashes(imageName: string, quote: string -> string, inputs: Inputs, repoName: string)
    requires |inputs.suggestions| > 0 && Normalise(inputs.suggestions[0]) == ReducedSentinel
    requires |inputs.oracles| > 0 && inputs.oracles[0].Dispatched?
    requires !ReducedVerdict(inputs.oracles[0].output).success
    ensures Step(imageName, quote, Initial(imageName, repoName), inputs).Stop?
    ensures Step(imageName, quote, Initial(imageName, repoName), inputs).outcome == Crashed(OutputUnbound)
  {
  }

  /**
   * A command round with a completed result: the command is sent; a failure
   * record is written iff the exit code is non-zero; the human is asked iff
   * the failure escalates; otherwise the round records the suggestion.
   */
  lemma CompletedCommandRound(imageName: string, quote: string -> string, s: State, inputs: Inputs)
    requires |inputs.suggestions| > 0 && Normalise(inputs.suggestions[0]) != ReducedSentinel
    requires |inputs.results| > 0 && inputs.results[0].Completed?
    requires |inputs.humans| > 0 && |inputs.continues| > 0
    ensures var r := Step(imageName, quote, s, inputs);
      var next := Normalise(inputs.suggestions[0]);
      var command := ReducedCommand(quote, next);
      var code, out := inputs.results[0].exitCode, inputs.results[0].raw;
      var s' := if r.Continue? then r.state else r.final;
      && s'.sent == s.sent + [command]
      && s'.output == Some(out)
      && (s'.failures == if code != 0 then s.failures + [FailureRecord(imageName, command, out)] else s.failures)
      && (r.Continue? ==> (r.rest.humans == if code != 0 && Escalates(code, out) then inputs.humans[1..] else inputs.humans))
      && (r == Stop(HumanAborted, s') <==> code != 0 && Escalates(code, out) && IsAbort(inputs.humans[0]))
      && (!(code != 0 && Escalates(code, out)) ==>
            s'.t == CloseRound(AfterCommand(s.t, next, out)) &&
            (r.Continue? <==> !IsQuit(inputs.continues[0])))
  {
  }

  /**
   * A human reply other than ABORT is not executed: it only replaces the
   * suggestion as `last_command`, with the failed command's output as
   * `last_output`; the only command sent in the round is the failed one.
   */
  lemma HumanReplyRecordedNotExecuted(imageName: string, quote: string -> string, s: State, inputs: Inputs)
    requires |inputs.suggestions| > 0 && Normalise(inputs.suggestions[0]) != ReducedSentinel
    requires |inputs.results| > 0 && inputs.results[0].Completed?
    requires inputs.results[0].exitCode != 0 && Escalates(inputs.results[0].exitCode, inputs.results[0].raw)
    requires |inputs.humans| > 0 && !IsAbort(inputs.humans[0])
    requires |inputs.continues| > 0 && !IsQuit(inputs.continues[0])
    ensures var r := Step(imageName, quote, s, inputs);
      var out := inputs.results[0].raw;
      r.Continue? &&
      r.state.t == CloseRound(AfterCommand(s.t, inputs.humans[0], out)) &&
      r.state.sent == s.sent + [ReducedCommand(quote, Normalise(inputs.suggestions[0]))] &&
      r.rest.humans == inputs.humans[1..] && r.rest.results == inputs.results[1..]
  {
  }

  /** reduced.py's sentinel is exact: installer.py's sentinel is run as a shell command here. */
  lemma OtherSentinelIsACommand(imageName: string, quote: string -> string, s: State, inputs: Inputs)
    requires |inputs.suggestions| > 0 && Normalise(inputs.suggestions[0]) == InstallerSentinel
    requires |inputs.results| > 0
    ensures var r := Step(imageName, quote, s, inputs);
      (if r.Continue? then r.state else r.final).sent == s.sent + [ReducedCommand(quote, InstallerSentinel)]
  {
    var next := Normalise(inputs.suggestions[0]);
    assert next != ReducedSentinel by {
      assert |next| == |InstallerSentinel| != |ReducedSentinel|;
    }
    CommandRoundSendsOne(imageName, quote, next, s, inputs.(suggestions := inputs.suggestions[1..]));
  }

  /** A command round whose command ran sends exactly that command, however the round ends. */
  lemma CommandRoundSendsOne(imageName: string, quote: string -> string, next: string, s: State, inputs: Inputs)
    requires inputs.results != []
    ensures StateAfter(CommandRound(imageName, quote, next, s, inputs)).sent == s.sent + [ReducedCommand(quote, next)]
  {
    CommandRoundAppendOnly(imageName, quote, next, s, inputs);
    if inputs.results[0].Completed? {
      var command := ReducedCommand(quote, next);
      var code, out := inputs.results[0].exitCode, inputs.results[0].raw;
      var rest := inputs.(results := inputs.results[1..]);
      var s2 := s.(sent := s.sent + [command], output := Some(out));
      if code == 0 {
        EndRoundAppendOnly(s2.(t := AfterCommand(s2.t, next, out)), rest);
      } else {
        var s3 := s2.(failures := s2.failures + [FailureRecord(imageName, command, out)]);
        if !Escalates(code, out) {
          EndRoundAppendOnly(s3.(t := AfterCommand(s3.t, next, out)), rest);
        } else if rest.humans != [] && !IsAbort(rest.humans[0]) {
          EndRoundAppendOnly(s3.(t := AfterCommand(s3.t, rest.humans[0], out)), rest.(humans := rest.humans[1..]));
        }
      }
    }
  }

  /** `agentic_loop` as written, over the scripted replies. */
  method AgenticLoop(imageName: string, repoName: string, quote: string -> string, inputs: Inputs)
    returns (outcome: Outcome, final: State, ghost stopCalls: nat)
    ensures (outcome, final) == Run(imageName, quote, Initial(imageName, repoName), inputs)
    ensures stopCalls == if outcome == Crashed(DecodeOnStr) then 2 else 1
  {
    var context := Seed(imageName, repoName);
    var lastCommand := InitialCommand;
    var lastOutput := InitialOutput;
    var oracleResult := NotYetConsulted;
    var message := "";
    var output: Option<string> := None;
    var sent: seq<string> := [];
    var failures: seq<FailureRecord> := [];
    var suggestions, results, oracles, humans, continues :=
      inputs.suggestions, inputs.results, inputs.oracles, inputs.humans, inputs.continues;
    stopCalls := 0;
    ghost var goal := Run(imageName, quote, Initial(imageName, repoName), inputs);

    while true
      invariant Run(imageName, quote,
                    State(Transcript(context, lastCommand, lastOutput, oracleResult, message), output, sent, failures),
                    Inputs(suggestions, results, oracles, humans, continues)) == goal
      invariant stopCalls == 0
      decreases |suggestions|
    {
      ghost var s0 := State(Transcript(context, lastCommand, lastOutput, oracleResult, message), output, sent, failures);
      ghost var in0 := Inputs(suggestions, results, oracles, humans, continues);
      if suggestions == [] {
        outcome := InputExhausted;
        break;
      }
      var nextCommand := Normalise(suggestions[0]);
      suggestions := suggestions[1..];
      if nextCommand == ReducedSentinel {
        if oracles == [] {
          outcome := InputExhausted;
          break;
        }
        var run := oracles[0];
        oracles := oracles[1..];
        if run.DispatchRaised? {
          outcome := Crashed(OracleRaised);
          break;
        }
        var verdict := CheckExecutionStatusReduced(run.output);
        oracleResult := Consulted(verdict.success);
        message := ShowMessage(verdict.message);
        lastCommand := nextCommand;
        lastOutput := OracleConsulted;
        if verdict.success {
          outcome := Installed;
          break;
        }
        if output.None? {
          outcome := Crashed(OutputUnbound);
          break;
        }
        failures := failures + [FailureRecord(imageName, ReducedSentinel, output.value)];
      } else {
        var bashCommand := ReducedCommand(quote, nextCommand);
        if results == [] {
          outcome := InputExhausted;
          break;
        }
        var result := results[0];
        results := results[1..];
        sent := sent + [bashCommand];
        if result.ExecFailed? {
          // the simulator stopped its own container before returning the str
          stopCalls := stopCalls + 1;
          outcome := Crashed(DecodeOnStr);
          break;
        }
        var exitCode, out := result.exitCode, result.raw;
        output := Some(out);
        if exitCode != 0 {
          failures := failures + [FailureRecord(imageName, bashCommand, out)];
          if Escalates(exitCode, out) {
            if humans == [] {
              outcome := InputExhausted;
              break;
            }
            var humanCommand := humans[0];
            humans := humans[1..];
            if IsAbort(humanCommand) {
              outcome := HumanAborted;
              break;
            }
            nextCommand := humanCommand;
          }
        }
        lastCommand := nextCommand;
        lastOutput := out;
        message := OracleNotConsulted;
      }
      context := context + RoundText(Transcript(context, lastCommand, lastOutput, oracleResult, message));
      if continues == [] {
        outcome := InputExhausted;
        break;
      }
      var cont := continues[0];
      continues := continues[1..];
      if IsQuit(cont) {
        outcome := UserQuit;
        break;
      }
    }
    // finally: simulator.stop_container()
    stopCalls := stopCalls + 1;
    final := State(Transcript(context, lastCommand, lastOutput, oracleResult, message), output, sent, failures);
  }
}
