/** The health gate of a wave and the decision to abort and roll back that follows from it. */
module FleetGate {
  import opened Basics
  import opened FleetExecution
  import opened FleetStaged

  datatype Verdict = GatePassed | GateFailed | GatePending

  datatype Evaluation = Evaluation(
    waveId: string, verdict: Verdict, degraded: bool, mode: GateMode, evaluated: nat, missing: nat, failing: nat,
    timedOut: bool, signals: seq<Signal>)

  datatype AbortReason = WaveGateFailed | WaveGateTimedOut

  datatype RollbackMode = Disabled | OnFailedGate | OnFailedOrTimedOut

  datatype Decision = Decision(
    waveId: string, shouldAbort: bool, shouldAutoRollback: bool, reason: Option<AbortReason>, detail: string)

  type Signals = map<string, Signal>

  predicate OutsideThresholds(s: Signal, policy: GatePolicy) {
    s.ready < policy.minReady || s.error > policy.maxError
  }

  function Missing(nodes: seq<string>, signals: Signals): nat {
    if nodes == [] then 0
    else Missing(nodes[..|nodes| - 1], signals) + if nodes[|nodes| - 1] in signals then 0 else 1
  }

  function Failing(nodes: seq<string>, signals: Signals, policy: GatePolicy): nat {
    if nodes == [] then 0
    else
      var last := nodes[|nodes| - 1];
      Failing(nodes[..|nodes| - 1], signals, policy)
      + if last in signals && OutsideThresholds(signals[last], policy) then 1 else 0
  }

  function Ingested(nodes: seq<string>, signals: Signals): seq<Signal> {
    if nodes == [] then []
    else
      var last := nodes[|nodes| - 1];
      Ingested(nodes[..|nodes| - 1], signals) + if last in signals then [signals[last]] else []
  }

  function VerdictFor(mode: GateMode, failing: nat, missing: nat, timedOut: bool): (Verdict, bool) {
    match mode
    case Required =>
      if failing == 0 && missing == 0 then (GatePassed, false)
      else if timedOut then (GateFailed, true)
      else (GatePending, failing > 0)
    case BestEffort => (GatePassed, failing > 0 || missing > 0)
  }

  function Evaluate(wave: Wave, signals: Signals, startedAt: nat, evaluatedAt: nat): Evaluation {
    var timedOut := evaluatedAt >= SatAdd(startedAt, wave.policy.timeoutMs);
    var missing, failing := Missing(wave.nodes, signals), Failing(wave.nodes, signals, wave.policy);
    var (verdict, degraded) := VerdictFor(wave.policy.mode, failing, missing, timedOut);
    var ingested := Ingested(wave.nodes, signals);
    Evaluation(wave.id, verdict, degraded, wave.policy.mode, |ingested|, missing, failing, timedOut, ingested)
  }

  method EvaluateWaveGate(wave: Wave, signals: Signals, startedAt: nat, evaluatedAt: nat) returns (e: Evaluation)
    ensures e == Evaluate(wave, signals, startedAt, evaluatedAt)
  {
    var deadline := SatAdd(startedAt, wave.policy.timeoutMs);
    var timedOut := evaluatedAt >= deadline;
    var missing, failing, ingested := 0, 0, [];
    for i := 0 to |wave.nodes|
      invariant missing == Missing(wave.nodes[..i], signals)
      invariant failing == Failing(wave.nodes[..i], signals, wave.policy)
      invariant ingested == Ingested(wave.nodes[..i], signals)
    {
      assert wave.nodes[..i + 1][..i] == wave.nodes[..i];
      var node := wave.nodes[i];
      if node in signals {
        if signals[node].ready < wave.policy.minReady || signals[node].error > wave.policy.maxError {
          failing := failing + 1;
        }
        ingested := ingested + [signals[node]];
      } else {
        missing := missing + 1;
      }
    }
    assert wave.nodes[..|wave.nodes|] == wave.nodes;
    var (verdict, degraded) := VerdictFor(wave.policy.mode, failing, missing, timedOut);
    e := Evaluation(wave.id, verdict, degraded, wave.policy.mode, |ingested|, missing, failing, timedOut, ingested);
  }

  /** The signal a node's backend has for the gate's window, if it answers one. */
  function SignalOf(oracle: Oracle, log: seq<Call>, node: string, windowMs: nat): Option<Signal> {
    match oracle.health(log, node, windowMs)
    case Ok(found) => found
    case Err(_) => None
  }

  function Collected(oracle: Oracle, log: seq<Call>, wave: Wave): Signals {
    map n | n in wave.nodes && SignalOf(oracle, log, n, wave.policy.windowMs).Some?
      :: SignalOf(oracle, log, n, wave.policy.windowMs).value
  }

  method CollectWaveHealthSignals(backend: NodeBackend, wave: Wave) returns (signals: Signals)
    ensures signals == Collected(backend.oracle, backend.log, wave)
  {
    signals := map[];
    for i := 0 to |wave.nodes|
      invariant signals == Collected(backend.oracle, backend.log, wave.(nodes := wave.nodes[..i]))
    {
      var answer := backend.oracle.health(backend.log, wave.nodes[i], wave.policy.windowMs);
      assert wave.nodes[..i + 1] == wave.nodes[..i] + [wave.nodes[i]];
      if answer.Ok? && answer.value.Some? {
        signals := signals[wave.nodes[i] := answer.value.value];
      }
    }
    assert wave.nodes[..|wave.nodes|] == wave.nodes;
  }

  predicate ShouldAutoRollback(mode: RollbackMode, timedOut: bool) {
    match mode
    case Disabled => false
    case OnFailedGate => !timedOut
    case OnFailedOrTimedOut => true
  }

  const CONTINUE_DETAIL: string := "wave gate passed; rollout can continue"
  const OBSERVE_DETAIL: string := "wave gate pending within timeout; keep observing"
  const ROLLBACK_DETAIL: string := "wave gate failed; aborting rollout and triggering automatic rollback"
  const OPERATOR_DETAIL: string := "wave gate failed; aborting rollout and waiting for operator rollback"

  function Decide(gate: Evaluation, mode: RollbackMode): Decision {
    if gate.verdict == GatePassed then Decision(gate.waveId, false, false, None, CONTINUE_DETAIL)
    else if gate.verdict == GatePending && !gate.timedOut then Decision(gate.waveId, false, false, None, OBSERVE_DETAIL)
    else
      var rollback := ShouldAutoRollback(mode, gate.timedOut);
      Decision(gate.waveId, true, rollback, Some(if gate.timedOut then WaveGateTimedOut else WaveGateFailed),
               if rollback then ROLLBACK_DETAIL else OPERATOR_DETAIL)
  }

  // ----- evaluation and decision together -----

  /** The node reported nothing, or reported values outside the thresholds. */
  predicate Unhealthy(signals: Signals, policy: GatePolicy, node: string) {
    node !in signals || OutsideThresholds(signals[node], policy)
  }

  lemma {:induction false} CountsMeaning(nodes: seq<string>, signals: Signals, policy: GatePolicy)
    ensures |Ingested(nodes, signals)| + Missing(nodes, signals) == |nodes|
    ensures Failing(nodes, signals, policy) <= |Ingested(nodes, signals)|
    ensures Missing(nodes, signals) == 0 && Failing(nodes, signals, policy) == 0 <==>
      forall n :: n in nodes ==> !Unhealthy(signals, policy, n)
    decreases |nodes|
  {
    if nodes != [] {
      var front, last := nodes[..|nodes| - 1], nodes[|nodes| - 1];
      CountsMeaning(front, signals, policy);
      assert nodes == front + [last];
      assert (forall n :: n in nodes ==> !Unhealthy(signals, policy, n)) <==>
        (forall n :: n in front ==> !Unhealthy(signals, policy, n)) && !Unhealthy(signals, policy, last);
    }
  }

  /** A required gate past its saturating deadline with an unhealthy node. */
  ghost predicate Condemned(wave: Wave, signals: Signals, startedAt: nat, evaluatedAt: nat) {
    && wave.policy.mode == Required && evaluatedAt >= SatAdd(startedAt, wave.policy.timeoutMs)
    && exists n :: n in wave.nodes && Unhealthy(signals, wave.policy, n)
  }

  /**
   Evaluating a gate and deciding on it aborts exactly when the gate is required, its deadline has
   passed and some node is unhealthy. The reason is then always the timeout, so of the rollback modes
   only the one that includes timeouts ever rolls back.
   */
  lemma GateThenDecision(wave: Wave, signals: Signals, startedAt: nat, evaluatedAt: nat, mode: RollbackMode)
    ensures
      var gate := Evaluate(wave, signals, startedAt, evaluatedAt);
      var decision := Decide(gate, mode);
      && (decision.shouldAbort <==> Condemned(wave, signals, startedAt, evaluatedAt))
      && decision.reason == (if decision.shouldAbort then Some(WaveGateTimedOut) else None)
      && (decision.shouldAutoRollback <==> decision.shouldAbort && mode == OnFailedOrTimedOut)
      && gate.evaluated + gate.missing == |wave.nodes| && |gate.signals| == gate.evaluated
      && gate.failing <= gate.evaluated
      && (gate.verdict == GateFailed <==> decision.shouldAbort) && decision.waveId == wave.id
  {
    CountsMeaning(wave.nodes, signals, wave.policy);
  }

  /** For fixed signals an abort, once decided, is decided at every later time. */
  lemma DecisionMonotone(wave: Wave, signals: Signals, startedAt: nat, earlier: nat, later: nat, mode: RollbackMode)
    requires earlier <= later && Decide(Evaluate(wave, signals, startedAt, earlier), mode).shouldAbort
    ensures Decide(Evaluate(wave, signals, startedAt, later), mode)
      == Decide(Evaluate(wave, signals, startedAt, earlier), mode)
  {
    GateThenDecision(wave, signals, startedAt, earlier, mode);
    GateThenDecision(wave, signals, startedAt, later, mode);
  }

  /** A rollback mode meant for failed gates never acts on a gate that was evaluated. */
  lemma OnFailedGateNeverRollsBack(wave: Wave, signals: Signals, startedAt: nat, evaluatedAt: nat)
    ensures !Decide(Evaluate(wave, signals, startedAt, evaluatedAt), OnFailedGate).shouldAutoRollback
  {
    GateThenDecision(wave, signals, startedAt, evaluatedAt, OnFailedGate);
  }
}
