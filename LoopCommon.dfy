/**
 * What the two installation-repair loops, `agentic_loop` in reduced.py and
 * `complete_installation` in installer.py, have in common: the five values
 * each round reassigns (`context`, `last_command`, `last_output`,
 * `oracle_result`, `message`), the escalation and termination tests on
 * the human's and the operator's replies, and the ways a session ends.
 */
module LoopCommon {
  import opened Wrappers
  import opened StringUtils
  import opened ExecStatus

  /** How a session ends. */
  datatype Outcome =
    | Installed          // the oracle returned True
    | HumanAborted       // the human's reply, upper-cased, was "ABORT"
    | UserQuit           // the continue prompt's reply, lower-cased, was "q"
    | InputExhausted     // a scripted input ran out: the end of the modelled run
    | Crashed(reason: Crash)

  /** The exceptions that escape a loop (its `finally` still runs). */
  datatype Crash =
    | DecodeOnStr        // reduced.py: `.decode` of the `str` a failed simulator call returns
    | OutputUnbound      // reduced.py: `output` read before any command assigned it
    | OracleRaised       // the oracle's dispatch or verdict raised, or its result did not unpack

  /** `oracle_result`: the text "Not yet consulted" until the oracle's first verdict. */
  datatype OracleField = NotYetConsulted | Consulted(success: bool)

  /** An oracle consultation as the loop sees it: the parsed output file, or a raise. */
  datatype OracleRun = Dispatched(output: seq<Item>) | DispatchRaised

  /** The five values a round reassigns. */
  datatype Transcript = Transcript(
    context: string,
    lastCommand: string,
    lastOutput: string,
    oracleResult: OracleField,
    message: string)

  const InitialCommand: string := "Initial setup"
  const InitialOutput: string := "Container created"
  const OracleConsulted: string := "N/A; Oracle was consulted"
  const OracleNotConsulted: string := "N/A; Oracle was not consulted in previous round"
  const CriticalMarker: string := "critical error"
  const AbortToken: string := "ABORT"
  const QuitToken: string := "q"

  /** The seed of `context`, identical in both files. */
  function Seed(imageName: string, repoName: string): string {
    "Docker image: " + imageName + ". Partially-installed repo can be found at: /repos/" + repoName
  }

  /**
   * The transcript before the first round.  `message` has no value in the
   * source until a round assigns it; every round does so before reading it.
   */
  function InitialTranscript(imageName: string, repoName: string): Transcript {
    Transcript(Seed(imageName, repoName), InitialCommand, InitialOutput, NotYetConsulted, "")
  }

  /** How an f-string shows an optional message: Python prints `None` for a missing one. */
  function ShowMessage(m: Option<string>): string {
    match m
    case None => "None"
    case Some(s) => s
  }

  /** `f"\nExecuted: {last_command}\nResult: {last_output}\nOracle: {message}"`. */
  function RoundText(t: Transcript): string {
    "\nExecuted: " + t.lastCommand + "\nResult: " + t.lastOutput + "\nOracle: " + t.message
  }

  /** After an oracle consultation. */
  function AfterOracle(t: Transcript, sentinel: string, v: Verdict): Transcript {
    t.(oracleResult := Consulted(v.success), lastCommand := sentinel,
       lastOutput := OracleConsulted, message := ShowMessage(v.message))
  }

  /** After a command round: `command` is the suggestion or the human's replacement. */
  function AfterCommand(t: Transcript, command: string, output: string): Transcript {
    t.(lastCommand := command, lastOutput := output, message := OracleNotConsulted)
  }

  /** `context += ...` at the end of a round that did not break. */
  function CloseRound(t: Transcript): (r: Transcript)
    ensures StartsWith(r.context, t.context)
    ensures r.lastCommand == t.lastCommand && r.lastOutput == t.lastOutput
    ensures r.oracleResult == t.oracleResult && r.message == t.message
  {
    var r := t.(context := t.context + RoundText(t));
    assert r.context[..|t.context|] == t.context;
    r
  }

  /** A failed command goes to the human iff it timed out (-1) or reports a critical error. */
  predicate Escalates(exitCode: int, output: string) {
    exitCode == -1 || Contains(Lower(output), CriticalMarker)
  }

  /** `human_command.upper() == 'ABORT'`. */
  predicate IsAbort(reply: string) {
    Upper(reply) == AbortToken
  }

  /** `cont.lower() == 'q'`. */
  predicate IsQuit(reply: string) {
    Lower(reply) == QuitToken
  }

  /** The abort token is recognised in any letter case. */
  lemma AbortIgnoresCase(reply: string)
    ensures IsAbort(reply) <==> |reply| == 5 && forall k :: 0 <= k < 5 ==> UpperChar(reply[k]) == AbortToken[k]
  {
    if |reply| == 5 && forall k :: 0 <= k < 5 ==> UpperChar(reply[k]) == AbortToken[k] {
      assert Upper(reply) == AbortToken;
    }
  }

  /** Only a reply that is a single `q` or `Q` quits. */
  lemma QuitTokens(reply: string)
    ensures IsQuit(reply) <==> reply == "q" || reply == "Q"
  {
    if IsQuit(reply) {
      assert Lower(reply)[0] == LowerChar(reply[0]);
    }
  }
}
