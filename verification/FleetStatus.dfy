/** The status shown for a staged rollout: a failed or aborted wave blocks the waves after it. */
module FleetStatus {
  import opened Basics
  import opened Ordering
  import opened FleetExecution
  import opened FleetConvergence
  import opened FleetStaged
  import opened FleetGate

  datatype WaveState = WavePending | WaveInProgress | WavePassed | WaveFailed | WaveAborted | WaveBlocked

  datatype WaveSurface = WaveSurface(
    id: string, nodeCount: nat, maxParallel: nat, state: WaveState, verdict: Option<Verdict>, degraded: bool,
    timedOut: bool, evaluated: nat, failing: nat, missing: nat)

  datatype RolloutState = RolloutProgressing | RolloutAborted | RolledBack | RolloutConverged | RolloutDegraded

  datatype AutoRollback = AutoRollback(attempted: bool, succeeded: bool, target: Option<string>,
                                       state: Option<FleetState>)

  datatype StatusSurface = StatusSurface(
    state: RolloutState, version: string, digest: string, recommended: Recommendation, aborted: bool, rolledBack: bool,
    rollbackTarget: Option<string>, rollbackSucceeded: Option<bool>, waves: seq<WaveSurface>, nodes: seq<NodeSurface>)

  datatype NodeSurface = NodeSurface(
    node: string, waveId: string, state: NodeState, activeVersion: Option<string>, activeDigest: Option<string>,
    signal: Option<Signal>, gateFailed: bool)

  type Gates = map<string, Evaluation>

  function GateOf(gates: Gates, wave: Wave): Option<Evaluation> {
    if wave.id in gates then Some(gates[wave.id]) else None
  }

  function Counted(wave: Wave, state: WaveState, gate: Option<Evaluation>): WaveSurface {
    match gate
    case Some(g) =>
      WaveSurface(wave.id, |wave.nodes|, wave.maxParallel, state, Some(g.verdict), g.degraded, g.timedOut, g.evaluated,
                  g.failing, g.missing)
    case None => WaveSurface(wave.id, |wave.nodes|, wave.maxParallel, state, None, false, false, 0, 0, 0)
  }

  function RenderWave(wave: Wave, gate: Option<Evaluation>, abortId: Option<string>, blocked: bool): WaveSurface {
    if blocked && gate.None? then Counted(wave, WaveBlocked, None)
    else if abortId == Some(wave.id) then Counted(wave, WaveAborted, gate)
    else match gate
      case Some(g) =>
        var state := match g.verdict
          case GatePassed => WavePassed
          case GateFailed => WaveFailed
          case GatePending => WaveInProgress;
        Counted(wave, state, gate)
      case None => Counted(wave, WavePending, None)
  }

  predicate Blocks(s: WaveSurface) {
    s.state == WaveFailed || s.state == WaveAborted
  }

  function RenderWaves(waves: seq<Wave>, gates: Gates, abortId: Option<string>): (seq<WaveSurface>, bool) {
    if waves == [] then ([], false)
    else
      var (surfaces, blocked) := RenderWaves(waves[..|waves| - 1], gates, abortId);
      var last := waves[|waves| - 1];
      var surface := RenderWave(last, GateOf(gates, last), abortId, blocked);
      (surfaces + [surface], blocked || Blocks(surface))
  }

  method RenderEachWave(waves: seq<Wave>, gates: Gates, abortId: Option<string>) returns (surfaces: seq<WaveSurface>)
    ensures surfaces == RenderWaves(waves, gates, abortId).0
  {
    surfaces := [];
    var blocked := false;
    for i := 0 to |waves|
      invariant (surfaces, blocked) == RenderWaves(waves[..i], gates, abortId)
    {
      assert waves[..i + 1][..i] == waves[..i];
      var surface := RenderWave(waves[i], GateOf(gates, waves[i]), abortId, blocked);
      blocked := blocked || surface.state == WaveFailed || surface.state == WaveAborted;
      surfaces := surfaces + [surface];
    }
    assert waves[..|waves|] == waves;
  }

  // ----- the rows of the nodes -----

  /** Adding signals to an index; a later one of a node replaces an earlier one. */
  function Overlaid(index: map<string, Signal>, ss: seq<Signal>): map<string, Signal> {
    if ss == [] then index else Overlaid(index, ss[..|ss| - 1])[ss[|ss| - 1].node := ss[|ss| - 1]]
  }

  /** The signals of the given gates by node, gate by gate. */
  function SignalsIn(gates: Gates, ids: seq<string>): map<string, Signal>
    requires forall i :: 0 <= i < |ids| ==> ids[i] in gates
  {
    if ids == [] then map[] else Overlaid(SignalsIn(gates, ids[..|ids| - 1]), gates[ids[|ids| - 1]].signals)
  }

  /** The thresholds of the status are fixed; those of a gate's policy play no role. */
  predicate Marked(s: Signal) {
    s.ready < 95 || s.error > 5
  }

  function MarkedNodes(ss: seq<Signal>): set<string> {
    if ss == [] then {}
    else MarkedNodes(ss[..|ss| - 1]) + if Marked(ss[|ss| - 1]) then {ss[|ss| - 1].node} else {}
  }

  function MarkedIn(gates: Gates, ids: seq<string>): set<string>
    requires forall i :: 0 <= i < |ids| ==> ids[i] in gates
  {
    if ids == [] then {} else MarkedIn(gates, ids[..|ids| - 1]) + MarkedNodes(gates[ids[|ids| - 1]].signals)
  }

  method OverlayEach(index: map<string, Signal>, ss: seq<Signal>) returns (signals: map<string, Signal>)
    ensures signals == Overlaid(index, ss)
  {
    signals := index;
    for j := 0 to |ss|
      invariant signals == Overlaid(index, ss[..j])
    {
      assert ss[..j + 1][..j] == ss[..j];
      signals := signals[ss[j].node := ss[j]];
    }
    assert ss[..|ss|] == ss;
  }

  method FlattenGateSignals(gates: Gates, ids: seq<string>) returns (signals: map<string, Signal>)
    requires forall i :: 0 <= i < |ids| ==> ids[i] in gates
    ensures signals == SignalsIn(gates, ids)
  {
    signals := map[];
    for i := 0 to |ids|
      invariant signals == SignalsIn(gates, ids[..i])
    {
      assert ids[..i + 1][..i] == ids[..i];
      signals := OverlayEach(signals, gates[ids[i]].signals);
    }
    assert ids[..|ids|] == ids;
  }

  method MarkEach(before: set<string>, ss: seq<Signal>) returns (failures: set<string>)
    ensures failures == before + MarkedNodes(ss)
  {
    failures := before;
    for j := 0 to |ss|
      invariant failures == before + MarkedNodes(ss[..j])
    {
      assert ss[..j + 1][..j] == ss[..j];
      if ss[j].ready < 95 || ss[j].error > 5 {
        failures := failures + {ss[j].node};
      }
    }
    assert ss[..|ss|] == ss;
  }

  method GateFailureNodes(gates: Gates, ids: seq<string>) returns (failures: set<string>)
    requires forall i :: 0 <= i < |ids| ==> ids[i] in gates
    ensures failures == MarkedIn(gates, ids)
  {
    failures := {};
    for i := 0 to |ids|
      invariant failures == MarkedIn(gates, ids[..i])
    {
      assert ids[..i + 1][..i] == ids[..i];
      failures := MarkEach(failures, gates[ids[i]].signals);
    }
    assert ids[..|ids|] == ids;
  }

  const UNASSIGNED: string := "unassigned"

  function NodeRow(plan: Plan, signals: map<string, Signal>, failures: set<string>, r: NodeReport): NodeSurface {
    NodeSurface(r.node, if r.node in plan.nodeToWave then plan.nodeToWave[r.node] else UNASSIGNED, r.state,
                r.activeVersion, r.activeDigest, if r.node in signals then Some(signals[r.node]) else None,
                r.node in failures)
  }

  function RowsWith(plan: Plan, signals: map<string, Signal>, failures: set<string>, reports: seq<NodeReport>)
    : (rows: seq<NodeSurface>)
    ensures |rows| == |reports|
    ensures forall i :: 0 <= i < |rows| ==> rows[i] == NodeRow(plan, signals, failures, reports[i])
  {
    seq(|reports|, i requires 0 <= i < |reports| => NodeRow(plan, signals, failures, reports[i]))
  }

  function NodeRows(plan: Plan, gates: Gates, reports: seq<NodeReport>): (rows: seq<NodeSurface>)
    ensures |rows| == |reports|
  {
    var ids := SortedNames(gates.Keys);
    RowsWith(plan, SignalsIn(gates, ids), MarkedIn(gates, ids), reports)
  }

  method RenderEachNode(plan: Plan, signals: map<string, Signal>, failures: set<string>, reports: seq<NodeReport>)
    returns (rows: seq<NodeSurface>)
    ensures rows == RowsWith(plan, signals, failures, reports)
  {
    rows := [];
    for i := 0 to |reports|
      invariant rows == RowsWith(plan, signals, failures, reports)[..i]
    {
      rows := rows + [NodeRow(plan, signals, failures, reports[i])];
    }
  }

  function AbortId(decision: Option<Decision>): Option<string> {
    if decision.Some? && decision.value.shouldAbort then Some(decision.value.waveId) else None
  }

  function OverallState(aborted: bool, rolledBack: bool, state: FleetState): RolloutState {
    if rolledBack then RolledBack
    else if aborted then RolloutAborted
    else match state
      case Converged => RolloutConverged
      case Degraded => RolloutDegraded
      case Progressing => RolloutProgressing
      case Diverged => RolloutProgressing
  }

  function Render(plan: Plan, report: Report, gates: Gates, decision: Option<Decision>, rollback: Option<AutoRollback>)
    : StatusSurface
  {
    var aborted := decision.Some? && decision.value.shouldAbort;
    var rolledBack := rollback.Some? && rollback.value.attempted;
    StatusSurface(OverallState(aborted, rolledBack, report.state), report.version, report.digest, report.recommended,
                  aborted, rolledBack, match rollback { case Some(r) => r.target case None => None },
      match rollback { case Some(r) => Some(r.succeeded) case None => None },
      RenderWaves(plan.waves, gates, AbortId(decision)).0, NodeRows(plan, gates, report.nodes))
  }

  method RenderStagedStatusSurface(plan: Plan, report: Report, gates: Gates, decision: Option<Decision>,
                                   rollback: Option<AutoRollback>)
    returns (s: StatusSurface)
    ensures s == Render(plan, report, gates, decision, rollback)
  {
    var surfaces := RenderEachWave(plan.waves, gates, AbortId(decision));
    var ids := SortedNames(gates.Keys);
    var signals := FlattenGateSignals(gates, ids);
    var failures := GateFailureNodes(gates, ids);
    var rows := RenderEachNode(plan, signals, failures, report.nodes);
    var aborted := decision.Some? && decision.value.shouldAbort;
    var rolledBack := rollback.Some? && rollback.value.attempted;
    s := StatusSurface(OverallState(aborted, rolledBack, report.state), report.version, report.digest,
                       report.recommended,
      aborted, rolledBack, match rollback { case Some(r) => r.target case None => None },
      match rollback { case Some(r) => Some(r.succeeded) case None => None }, surfaces, rows);
  }

  // ----- sticky blocking -----

  /** Some wave before `j` failed or was aborted. */
  ghost predicate BlockedBefore(surfaces: seq<WaveSurface>, j: int)
    requires 0 <= j <= |surfaces|
  {
    exists i :: 0 <= i < j && Blocks(surfaces[i])
  }

  lemma {:induction false} BlockedFlag(waves: seq<Wave>, gates: Gates, abortId: Option<string>)
    ensures
      var (surfaces, blocked) := RenderWaves(waves, gates, abortId);
      && |surfaces| == |waves|
      && (blocked <==> BlockedBefore(surfaces, |surfaces|))
      && forall j :: 0 <= j < |waves| ==>
           surfaces[j] == RenderWave(waves[j], GateOf(gates, waves[j]), abortId, BlockedBefore(surfaces, j))
    decreases |waves|
  {
    if waves != [] {
      var front := waves[..|waves| - 1];
      BlockedFlag(front, gates, abortId);
      var (before, blocked) := RenderWaves(front, gates, abortId);
      var (surfaces, after) := RenderWaves(waves, gates, abortId);
      var last := surfaces[|front|];
      assert surfaces == before + [last] && after == (blocked || Blocks(last));
      forall j | 0 <= j <= |front| ensures BlockedBefore(surfaces, j) == BlockedBefore(before, j) {
        assert forall i :: 0 <= i < |front| ==> surfaces[i] == before[i];
      }
      assert BlockedBefore(surfaces, |surfaces|) <==> BlockedBefore(before, |front|) || Blocks(last) by {
        if BlockedBefore(before, |front|) {
          var i :| 0 <= i < |front| && Blocks(before[i]);
          assert Blocks(surfaces[i]);
        }
        if Blocks(last) { assert Blocks(surfaces[|front|]); }
      }
      assert waves[..|waves| - 1] == front && waves[|front|] == waves[|waves| - 1];
    }
  }

  /**
   A wave is shown blocked exactly when it has no gate and an earlier wave failed or was aborted, and
   pending exactly when it has no gate, was not itself aborted and no earlier wave blocks it. So no wave
   after a failed or aborted one is pending, and every blocked wave has such a wave before it.
   */
  lemma StickyBlocking(waves: seq<Wave>, gates: Gates, abortId: Option<string>, j: int)
    requires 0 <= j < |waves|
    ensures
      var surfaces := RenderWaves(waves, gates, abortId).0;
      && |surfaces| == |waves|
      && (surfaces[j].state == WaveBlocked <==> waves[j].id !in gates && BlockedBefore(surfaces, j))
      && (surfaces[j].state == WavePending <==>
            waves[j].id !in gates && !BlockedBefore(surfaces, j) && abortId != Some(waves[j].id))
  {
    BlockedFlag(waves, gates, abortId);
  }

  // ----- the flag of a node against the gate -----

  lemma {:induction false} MarkedNodesMeaning(ss: seq<Signal>, n: string)
    ensures n in MarkedNodes(ss) <==> exists s :: s in ss && s.node == n && Marked(s)
    decreases |ss|
  {
    if ss != [] {
      MarkedNodesMeaning(ss[..|ss| - 1], n);
      assert ss == ss[..|ss| - 1] + [ss[|ss| - 1]];
    }
  }

  /** Some gate among `ids` holds a signal of the node outside the fixed thresholds. */
  ghost predicate MarkedBy(gates: Gates, ids: seq<string>, n: string) {
    exists id :: id in ids && id in gates && n in MarkedNodes(gates[id].signals)
  }

  lemma {:induction false} MarkedInMeaning(gates: Gates, ids: seq<string>, n: string)
    requires forall i :: 0 <= i < |ids| ==> ids[i] in gates
    ensures n in MarkedIn(gates, ids) <==> MarkedBy(gates, ids, n)
    decreases |ids|
  {
    if ids != [] {
      MarkedInMeaning(gates, ids[..|ids| - 1], n);
      assert ids == ids[..|ids| - 1] + [ids[|ids| - 1]];
    }
  }

  /** A node is flagged exactly when some gate holds a signal of it outside the fixed thresholds. */
  lemma FlagMeaning(plan: Plan, gates: Gates, reports: seq<NodeReport>, j: int)
    requires 0 <= j < |reports|
    ensures NodeRows(plan, gates, reports)[j].gateFailed <==>
      exists id, s :: id in gates && s in gates[id].signals && s.node == reports[j].node && Marked(s)
  {
    var ids, n := SortedNames(gates.Keys), reports[j].node;
    MarkedInMeaning(gates, ids, n);
    forall id | id in gates
      ensures n in MarkedNodes(gates[id].signals) <==> exists s :: s in gates[id].signals && s.node == n && Marked(s)
    {
      MarkedNodesMeaning(gates[id].signals, n);
    }
  }

  lemma {:induction false} IngestedMeaning(nodes: seq<string>, signals: Signals, s: Signal)
    ensures s in Ingested(nodes, signals) <==> exists n :: n in nodes && n in signals && signals[n] == s
    decreases |nodes|
  {
    if nodes != [] {
      var front, last := nodes[..|nodes| - 1], nodes[|nodes| - 1];
      IngestedMeaning(front, signals, s);
      assert nodes == front + [last];
    }
  }

  /** Every node reports under its own name. */
  ghost predicate OwnSignals(signals: Signals) {
    forall n :: n in signals ==> signals[n].node == n
  }

  /** The row of node `n` is flagged when the only gate is that of `wave`, evaluated on `signals`. */
  ghost predicate Flagged(wave: Wave, signals: Signals, startedAt: nat, evaluatedAt: nat, plan: Plan, r: NodeReport) {
    NodeRows(plan, map[wave.id := Evaluate(wave, signals, startedAt, evaluatedAt)], [r])[0].gateFailed
  }

  lemma FlaggedMeaning(wave: Wave, signals: Signals, startedAt: nat, evaluatedAt: nat, plan: Plan, r: NodeReport)
    requires OwnSignals(signals) && r.node in wave.nodes
    ensures Flagged(wave, signals, startedAt, evaluatedAt, plan, r) <==> r.node in signals && Marked(signals[r.node])
  {
    var gate := Evaluate(wave, signals, startedAt, evaluatedAt);
    FlagMeaning(plan, map[wave.id := gate], [r], 0);
    if r.node in signals { IngestedMeaning(wave.nodes, signals, signals[r.node]); }
    forall s | s in gate.signals && s.node == r.node ensures r.node in signals && s == signals[r.node] {
      IngestedMeaning(wave.nodes, signals, s);
    }
  }

  /** The gate itself counts the node as failing. */
  predicate Fails(wave: Wave, signals: Signals, n: string) {
    n in signals && OutsideThresholds(signals[n], wave.policy)
  }

  /** The status flags a node of the wave exactly when the gate counts it as failing. */
  ghost predicate FlagAgrees(wave: Wave, signals: Signals, plan: Plan, r: NodeReport) {
    forall startedAt, evaluatedAt ::
      Flagged(wave, signals, startedAt, evaluatedAt, plan, r) <==> Fails(wave, signals, r.node)
  }

  lemma AgreesExactly(wave: Wave, signals: Signals, plan: Plan, r: NodeReport)
    requires OwnSignals(signals) && r.node in wave.nodes
    ensures FlagAgrees(wave, signals, plan, r) <==>
      (r.node in signals ==> (Marked(signals[r.node]) <==> OutsideThresholds(signals[r.node], wave.policy)))
  {
    forall startedAt, evaluatedAt
      ensures Flagged(wave, signals, startedAt, evaluatedAt, plan, r) <==> r.node in signals && Marked(signals[r.node])
    {
      FlaggedMeaning(wave, signals, startedAt, evaluatedAt, plan, r);
    }
    assert Flagged(wave, signals, 0, 0, plan, r) <==> r.node in signals && Marked(signals[r.node]);
  }

  /** A signal the fixed thresholds and those of the policy judge differently, if they differ. */
  function Telltale(n: string, policy: GatePolicy): Signal {
    if policy.minReady != 95 then Signal(n, 0, 0, Min(policy.minReady, 95), 0, 0)
    else Signal(n, 0, 0, 95, Min(policy.maxError, 5) + 1, 0)
  }

  lemma TelltaleShows(n: string, policy: GatePolicy)
    ensures (Marked(Telltale(n, policy)) <==> OutsideThresholds(Telltale(n, policy), policy))
            <==> policy.minReady == 95 && policy.maxError == 5
  {
  }

  /**
   The flags of the status agree with a gate's own thresholds for all signals exactly when its policy
   asks for 95 percent ready and at most 5 percent errors.
   */
  lemma FlagsAgreeExactly(wave: Wave, plan: Plan, r: NodeReport)
    requires r.node in wave.nodes
    ensures (forall signals | OwnSignals(signals) :: FlagAgrees(wave, signals, plan, r))
            <==> wave.policy.minReady == 95 && wave.policy.maxError == 5
  {
    forall signals | OwnSignals(signals)
      ensures FlagAgrees(wave, signals, plan, r) <==>
        (r.node in signals ==> (Marked(signals[r.node]) <==> OutsideThresholds(signals[r.node], wave.policy)))
    {
      AgreesExactly(wave, signals, plan, r);
    }
    var told: Signals := map[r.node := Telltale(r.node, wave.policy)];
    TelltaleShows(r.node, wave.policy);
    assert OwnSignals(told);
    assert FlagAgrees(wave, told, plan, r) <==>
      (Marked(told[r.node]) <==> OutsideThresholds(told[r.node], wave.policy));
  }
}
