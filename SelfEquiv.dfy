/**
 * run_self_equiv.py: run the self-equivalence tests of every function or
 * method under test ("fut") against a test server in a container, record a
 * failure in the fut's test history, and write the futs that came back to
 * `<testgen_exp_id>_out.json`.
 *
 * The simulator's container, the rpyc connection and `self_equiv_futs` are
 * collaborators: what each does for one fut is a `FutScenario`.  Calls of
 * `stop_container` and `conn.close` are counted in ghost out-parameters.
 */
module SelfEquiv {
  import opened ExecStatus

  /**
   * A function or method under test; `statsUpdates` holds the
   * `update_exec_stats` calls made by `run_fut_with_port` itself.
   */
  class Fut {
    const repoId: string
    var statsUpdates: seq<Stats>

    constructor (repoId: string)
      ensures this.repoId == repoId && statsUpdates == []
    {
      this.repoId := repoId;
      statsUpdates := [];
    }

    method UpdateExecStats(stats: Stats)
      modifies this
      ensures statsUpdates == old(statsUpdates) + [stats]
    {
      statsUpdates := statsUpdates + [stats];
    }
  }

  /** What `get_service`'s collaborators do. */
  datatype ServiceAttempt =
    | SimulatorRaised(repr: string)   // the DockerSimulator constructor raised
    | ConnectRaised(repr: string)     // rpyc.connect raised; `repr` is what escapes get_service
    | Connected

  /** What `self_equiv_futs([fut], conn)` does. */
  datatype EquivRun = EquivReturned(ok: bool, message: string) | EquivRaised(tb: string)

  /**
   * One fut's collaborators, including whether `conn.close()` raises.
   * `stop_container` catches every exception of its own stop and remove, so
   * of the two cleanup calls only the close can raise.
   */
  datatype FutScenario = FutScenario(service: ServiceAttempt, run: EquivRun, closeRaises: bool)

  /** What `run_fut_with_port` gives back: the `(ok, message, fut)` tuple, or an exception. */
  datatype FutOutcome = Reported(ok: bool, message: string) | Escaped

  datatype RunResult = DividedByZero | Wrote(path: string, newFuts: seq<Fut>)

  const OutSuffix: string := "_out.json"

  /** The stats recorded for a failure, `{"error": e}`. */
  function ErrorStats(e: string): (m: Stats)
    ensures ErrorKey in m && m[ErrorKey] == e && |m| == 1
  {
    map[ErrorKey := e]
  }

  /** The result `run_fut_with_port` reports for a scenario. */
  function OutcomeOf(sc: FutScenario): FutOutcome {
    match sc.service
    case SimulatorRaised(e) => Reported(false, e)
    case ConnectRaised(e) => Reported(false, e)
    case Connected =>
      if sc.closeRaises then Escaped
      else match sc.run
        case EquivReturned(ok, msg) => Reported(ok, msg)
        case EquivRaised(tb) => Reported(false, tb)
  }

  /** The `update_exec_stats` calls `run_fut_with_port` makes for a scenario. */
  function UpdatesOf(sc: FutScenario): seq<Stats> {
    match sc.service
    case SimulatorRaised(e) => [ErrorStats(e)]
    case ConnectRaised(e) => [ErrorStats(e)]
    case Connected =>
      if sc.closeRaises then []
      else match sc.run
        case EquivReturned(_, _) => []
        case EquivRaised(tb) => [ErrorStats(tb)]
  }

  /**
   * A recorded error is the message reported with `False`; the only results
   * without a record are the ones `self_equiv_futs` returned and exceptions.
   */
  lemma RecordMatchesReport(sc: FutScenario)
    ensures |UpdatesOf(sc)| <= 1
    ensures |UpdatesOf(sc)| == 1 ==>
      OutcomeOf(sc) == Reported(false, UpdatesOf(sc)[0][ErrorKey])
    ensures UpdatesOf(sc) == [] <==>
      OutcomeOf(sc) == Escaped || (sc.service.Connected? && sc.run.EquivReturned?)
  {
  }

  /** Only a raising `conn.close()` lets an exception out of `run_fut_with_port`. */
  lemma EscapesOnlyFromCleanup(sc: FutScenario)
    ensures OutcomeOf(sc) == Escaped <==> sc.service.Connected? && sc.closeRaises
  {
  }

  /**
   * `get_service`: constructs the simulator, then connects; a failed connect
   * stops the simulator before the exception is re-raised.
   */
  method GetService(repoId: string, port: int, imageName: string, attempt: ServiceAttempt)
    returns (raised: bool, repr: string, ghost stops: nat)
    ensures raised <==> !attempt.Connected?
    ensures raised ==> repr == attempt.repr
    ensures stops == if attempt.ConnectRaised? then 1 else 0
  {
    stops := 0;
    raised, repr := false, "";
    if attempt.SimulatorRaised? {
      // DockerSimulator(...) raised before the try
      raised, repr := true, attempt.repr;
      return;
    }
    if attempt.ConnectRaised? {
      // simulator.stop_container(); raise e
      stops := stops + 1;
      raised, repr := true, attempt.repr;
      return;
    }
  }

  /**
   * `run_fut_with_port`: a service failure and an exception of
   * `self_equiv_futs` are recorded in the fut; after a successful connect the
   * `finally` clause stops the simulator and then closes the connection.
   */
  method RunFutWithPort(fut: Fut, port: int, imageName: string, sc: FutScenario)
    returns (r: FutOutcome, ghost stops: nat, ghost closes: nat)
    modifies fut
    ensures r == OutcomeOf(sc)
    ensures fut.statsUpdates == old(fut.statsUpdates) + UpdatesOf(sc)
    ensures sc.service.Connected? ==> stops == 1 && closes == 1
    ensures !sc.service.Connected? ==> closes == 0 && stops == (if sc.service.ConnectRaised? then 1 else 0)
  {
    closes := 0;
    var raised, e;
    raised, e, stops := GetService(fut.repoId, port, imageName, sc.service);
    if raised {
      fut.UpdateExecStats(ErrorStats(e));
      return Reported(false, e), stops, closes;
    }
    var tb := "";
    var returned := false;
    match sc.run {
      case EquivReturned(ok, msg) =>
        r := Reported(ok, msg);
        returned := true;
      case EquivRaised(trace) =>
        tb := trace;
    }
    // finally: simulator.stop_container(); conn.close()
    stops := stops + 1;
    closes := closes + 1;
    if sc.closeRaises {
      return Escaped, stops, closes;
    }
    if returned {
      return;
    }
    fut.UpdateExecStats(ErrorStats(tb));
    r := Reported(false, tb);
  }

  /** The futs whose call reported a result, in their original order (`new_futs`). */
  function Kept(futs: seq<Fut>, scs: seq<FutScenario>): seq<Fut>
    requires |futs| == |scs|
  {
    if futs == [] then []
    else
      var n := |futs| - 1;
      Kept(futs[..n], scs[..n]) + (if OutcomeOf(scs[n]).Reported? then [futs[n]] else [])
  }

  /** Taking one more fut into account keeps it iff its run reported. */
  lemma KeptSnoc(futs: seq<Fut>, scs: seq<FutScenario>, i: nat)
    requires |futs| == |scs| && i < |futs|
    ensures Kept(futs[..i + 1], scs[..i + 1]) ==
      Kept(futs[..i], scs[..i]) + (if OutcomeOf(scs[i]).Reported? then [futs[i]] else [])
  {
    assert futs[..i + 1][..i] == futs[..i] && scs[..i + 1][..i] == scs[..i];
  }

  /** The positions of the kept futs. */
  function KeptIndices(scs: seq<FutScenario>): seq<nat> {
    if scs == [] then []
    else
      var n := |scs| - 1;
      KeptIndices(scs[..n]) + (if OutcomeOf(scs[n]).Reported? then [n] else [])
  }

  /** The positions kept are below the length, strictly increasing, and exactly those that reported. */
  lemma {:induction false} KeptIndicesShape(scs: seq<FutScenario>)
    ensures var idx := KeptIndices(scs);
      (forall k :: 0 <= k < |idx| ==> idx[k] < |scs|) &&
      (forall k, l :: 0 <= k < l < |idx| ==> idx[k] < idx[l]) &&
      (forall j :: 0 <= j < |scs| ==> (j in idx <==> OutcomeOf(scs[j]).Reported?))
  {
    if scs != [] {
      var n := |scs| - 1;
      var idx0 := KeptIndices(scs[..n]);
      KeptIndicesShape(scs[..n]);
      var idx := KeptIndices(scs);
      assert idx == idx0 + (if OutcomeOf(scs[n]).Reported? then [n] else []);
      forall j | 0 <= j < n ensures (j in idx <==> OutcomeOf(scs[j]).Reported?) {
        assert scs[..n][j] == scs[j];
      }
    }
  }

  /** The kept futs are the futs at the kept positions. */
  lemma {:induction false} KeptAtIndices(futs: seq<Fut>, scs: seq<FutScenario>)
    requires |futs| == |scs|
    ensures var idx := KeptIndices(scs);
      |Kept(futs, scs)| == |idx| &&
      forall k :: 0 <= k < |idx| ==> idx[k] < |futs| && Kept(futs, scs)[k] == futs[idx[k]]
  {
    KeptIndicesShape(scs);
    if futs != [] {
      var n := |futs| - 1;
      KeptAtIndices(futs[..n], scs[..n]);
      KeptIndicesShape(scs[..n]);
      var idx0 := KeptIndices(scs[..n]);
      var kept0 := Kept(futs[..n], scs[..n]);
      forall k | 0 <= k < |idx0| ensures futs[..n][idx0[k]] == futs[idx0[k]] {
      }
    }
  }

  /**
   * `new_futs` is an order-preserving subsequence of the futs: it takes the
   * futs at strictly increasing positions, exactly those whose call reported.
   */
  lemma KeptIsSubsequence(futs: seq<Fut>, scs: seq<FutScenario>)
    requires |futs| == |scs|
    ensures var idx := KeptIndices(scs);
      |Kept(futs, scs)| == |idx| &&
      (forall k :: 0 <= k < |idx| ==> idx[k] < |futs| && Kept(futs, scs)[k] == futs[idx[k]]) &&
      (forall k, l :: 0 <= k < l < |idx| ==> idx[k] < idx[l]) &&
      (forall j :: 0 <= j < |scs| ==> (j in idx <==> OutcomeOf(scs[j]).Reported?))
  {
    KeptIndicesShape(scs);
    KeptAtIndices(futs, scs);
  }

  /** The output file of an experiment. */
  function OutPath(testgenDir: string, expId: string): string {
    testgenDir + "/" + expId + OutSuffix
  }

  /**
   * `run_self_equiv`.  With `execution_multiprocess != 0` it divides by zero
   * before touching any fut or writing; otherwise it runs the futs one by one
   * on the same port and writes the ones that reported a result.
   */
  method RunSelfEquiv(multiprocess: int, port: int, imageName: string, testgenDir: string, expId: string,
                      futs: seq<Fut>, scenarios: seq<FutScenario>)
    returns (r: RunResult, ghost portsUsed: seq<int>)
    requires |scenarios| == |futs|
    requires forall i, j :: 0 <= i < j < |futs| ==> futs[i] != futs[j]
    modifies set i | 0 <= i < |futs| :: futs[i]
    ensures multiprocess != 0 ==>
      r == DividedByZero && portsUsed == [] &&
      forall i :: 0 <= i < |futs| ==> futs[i].statsUpdates == old(futs[i].statsUpdates)
    ensures multiprocess == 0 ==>
      r == Wrote(OutPath(testgenDir, expId), Kept(futs, scenarios)) &&
      |portsUsed| == |futs| && (forall k :: 0 <= k < |portsUsed| ==> portsUsed[k] == port) &&
      forall i :: 0 <= i < |futs| ==> futs[i].statsUpdates == old(futs[i].statsUpdates) + UpdatesOf(scenarios[i])
  {
    portsUsed := [];
    var newFuts: seq<Fut> := [];
    if multiprocess != 0 {
      // print(1/0)
      return DividedByZero, portsUsed;
    }
    var i := 0;
    while i < |futs|
      invariant 0 <= i <= |futs|
      invariant newFuts == Kept(futs[..i], scenarios[..i])
      invariant |portsUsed| == i && forall k :: 0 <= k < i ==> portsUsed[k] == port
      invariant forall k :: 0 <= k < i ==> futs[k].statsUpdates == old(futs[k].statsUpdates) + UpdatesOf(scenarios[k])
      invariant forall k :: i <= k < |futs| ==> futs[k].statsUpdates == old(futs[k].statsUpdates)
    {
      var fut := futs[i];
      portsUsed := portsUsed + [port];
      var output, stops, closes := RunFutWithPort(fut, port, imageName, scenarios[i]);
      if output.Reported? {
        newFuts := newFuts + [fut];
      }
      KeptSnoc(futs, scenarios, i);
      i := i + 1;
    }
    assert futs[..i] == futs && scenarios[..i] == scenarios;
    r := Wrote(OutPath(testgenDir, expId), newFuts);
  }
}
