/** A canary rollout end to end: preview, plan, rollout, gates, decision, automatic rollback and status. */
module ListenerCanary {
  import opened Basics
  import opened Registry
  import opened SnapshotDiff
  import opened Promotion
  import opened FleetExecution
  import opened FleetStaged
  import opened FleetGate
  import opened FleetStatus
  import opened FleetRollout

  const MAX_LISTENER_NAME_LEN: nat := 128

  datatype CanaryRequest = CanaryRequest(
    listener: string, candidate: string, baseline: Option<string>, actor: Option<string>, reason: Option<string>,
    nodes: seq<string>, canaryNodes: nat, canaryMaxParallel: nat, fleetMaxParallel: nat, maxDivergence: nat,
    policy: GatePolicy, allowStaged: bool, rollbackMode: RollbackMode)

  datatype CanaryError =
    | EmptyListenerName | ListenerNameTooLong | EmptyCandidateVersion | InvalidCanaryNodes | InvalidCanaryMaxParallel
    | InvalidFleetMaxParallel | PreviewFailed(preview: PromotionError) | StagedAckRequired(severity: Severity)
    | PlanFailed(plan: PlanError) | FleetFailed(fleet: FleetError)

  datatype CanaryMetrics = CanaryMetrics(applies: nat, blocked: nat, autoRollbacks: nat)

  datatype Prepared = Prepared(preview: Preview, plan: Plan)

  datatype CanaryResponse = CanaryResponse(
    listener: string, version: string, preview: Preview, plan: Plan, rollout: FleetResponse, gates: Gates,
    decision: Option<Decision>, autoRollback: Option<AutoRollback>, status: StatusSurface)

  /** The canary wave, then the rest of the fleet if there is any. */
  function WavesFor(r: CanaryRequest): seq<Wave>
    requires r.canaryNodes <= |r.nodes|
  {
    var name, rest := Trim(r.listener), r.nodes[r.canaryNodes..];
    [Wave(name + "-canary", r.nodes[..r.canaryNodes], r.canaryMaxParallel, r.policy)]
    + if rest == [] then [] else [Wave(name + "-fleet", rest, r.fleetMaxParallel, r.policy)]
  }

  function RolloutFor(r: CanaryRequest): FleetRequest {
    FleetRequest(Trim(r.candidate), r.actor, r.reason, r.nodes, Canary(r.canaryNodes), r.maxDivergence)
  }

  /** The checks of the request itself, in order, up to the parallelism of its waves. */
  function Screened(fp: Fingerprinter, core: Core, r: CanaryRequest): (p: Result<Preview, CanaryError>)
    ensures p.Ok? ==> Trim(r.listener) != [] && 0 < r.canaryNodes <= |r.nodes|
    ensures p.Err? ==> !p.error.PlanFailed? && !p.error.FleetFailed?
  {
    var name := Trim(r.listener);
    if name == [] then Err(EmptyListenerName)
    else if Utf8Len(name) > MAX_LISTENER_NAME_LEN then Err(ListenerNameTooLong)
    else if Trim(r.candidate) == [] then Err(EmptyCandidateVersion)
    else if r.canaryNodes == 0 || r.canaryNodes > |r.nodes| then Err(InvalidCanaryNodes)
    else match PreviewOf(fp, core, r.candidate, r.baseline)
      case Err(error) => Err(PreviewFailed(error))
      case Ok(preview) =>
        if preview.severity != Low && !r.allowStaged then Err(StagedAckRequired(preview.severity))
        else if r.canaryMaxParallel == 0 || r.canaryMaxParallel > r.canaryNodes then Err(InvalidCanaryMaxParallel)
        else if r.canaryNodes < |r.nodes| && (r.fleetMaxParallel == 0 || r.fleetMaxParallel > |r.nodes| - r.canaryNodes)
        then Err(InvalidFleetMaxParallel)
        else Ok(preview)
  }

  /** Everything that is checked before a node is contacted. */
  function Prepare(fp: Fingerprinter, core: Core, r: CanaryRequest): Result<Prepared, CanaryError> {
    match Screened(fp, core, r)
    case Err(error) => Err(error)
    case Ok(preview) =>
      match PlanFor(RolloutFor(r), WavesFor(r))
      case Err(error) => Err(PlanFailed(error))
      case Ok(plan) => Ok(Prepared(preview, plan))
  }

  /** The gates of the first waves; the clock is read once per wave, after the reading for the rollout. */
  function GatesFor(oracle: Oracle, log: seq<Call>, waves: seq<Wave>, clock: nat -> nat): Gates {
    if waves == [] then map[]
    else
      var n := |waves| - 1;
      var gate := Evaluate(waves[n], Collected(oracle, log, waves[n]), clock(0), clock(n + 1));
      GatesFor(oracle, log, waves[..n], clock)[waves[n].id := gate]
  }

  function FirstDecision(waves: seq<Wave>, gates: Gates, mode: RollbackMode): Option<Decision> {
    if waves != [] && waves[0].id in gates then Some(Decide(gates[waves[0].id], mode)) else None
  }

  type CanaryOutcome = (seq<Call>, Ledger, CanaryMetrics, Result<CanaryResponse, CanaryError>)

  function Undone(oracle: Oracle, core: Core, log: seq<Call>, ledger: Ledger, r: CanaryRequest,
                  decision: Option<Decision>, at: nat)
    : AutoOutcome
  {
    match decision
    case Some(d) => AutoRolledBack(oracle, core, log, ledger, r.nodes, d, r.actor, r.reason, r.maxDivergence, at)
    case None => (log, ledger, Ok(AutoRollback(false, false, None, None)))
  }

  function Answered(r: CanaryRequest, ready: Prepared, rollout: FleetResponse, gates: Gates, decision: Option<Decision>,
                    kept: Option<AutoRollback>): CanaryResponse
  {
    CanaryResponse(Trim(r.listener), Trim(r.candidate), ready.preview, ready.plan, rollout, gates, decision, kept,
                   Render(ready.plan, rollout.convergence, gates, decision, kept))
  }

  /** What follows an accepted rollout. */
  function Judged(oracle: Oracle, core: Core, log: seq<Call>, ledger: Ledger, m: CanaryMetrics, r: CanaryRequest,
                  ready: Prepared, rollout: FleetResponse, clock: nat -> nat): CanaryOutcome
  {
    var gates := GatesFor(oracle, log, ready.plan.waves, clock);
    var decision := FirstDecision(ready.plan.waves, gates, r.rollbackMode);
    var (log', ledger', undone) := Undone(oracle, core, log, ledger, r, decision, clock(0));
    match undone
    case Err(error) => (log', ledger', m, Err(FleetFailed(error)))
    case Ok(back) =>
      var kept := if back.attempted then Some(back) else None;
      var m1 := if back.attempted then m.(autoRollbacks := SatAdd(m.autoRollbacks, 1)) else m;
      (log', ledger', m1.(applies := SatAdd(m.applies, 1)),
       Ok(Answered(r, ready, rollout, gates, decision, kept)))
  }

  function CanaryApplied(fp: Fingerprinter, oracle: Oracle, core: Core, log: seq<Call>, ledger: Ledger,
                         m: CanaryMetrics, r: CanaryRequest, clock: nat -> nat): CanaryOutcome
  {
    match Prepare(fp, core, r)
    case Err(error) => (log, ledger, if error.StagedAckRequired? then m.(blocked := SatAdd(m.blocked, 1)) else m,
                        Err(error))
    case Ok(ready) =>
      var (log', ledger', result) := FleetRolledOut(oracle, core, log, ledger, ready.plan.rollout, clock(0));
      match result
      case Err(error) => (log', ledger', m, Err(FleetFailed(error)))
      case Ok(rollout) => Judged(oracle, core, log', ledger', m, r, ready, rollout, clock)
  }

  class ListenerCanaryCoordinator {
    var metrics: CanaryMetrics

    constructor ()
      ensures metrics == CanaryMetrics(0, 0, 0)
    {
      metrics := CanaryMetrics(0, 0, 0);
    }

    method Screen(fp: Fingerprinter, control: SnapshotControlService, r: CanaryRequest)
      returns (p: Result<Preview, CanaryError>)
      modifies this
      ensures p == Screened(fp, control.Model().core, r)
      ensures metrics == if p.Err? && p.error.StagedAckRequired?
                         then old(metrics).(blocked := SatAdd(old(metrics).blocked, 1)) else old(metrics)
    {
      var name := Trim(r.listener);
      if name == [] { return Err(EmptyListenerName); }
      if Utf8Len(name) > MAX_LISTENER_NAME_LEN { return Err(ListenerNameTooLong); }
      if Trim(r.candidate) == [] { return Err(EmptyCandidateVersion); }
      if r.canaryNodes == 0 || r.canaryNodes > |r.nodes| { return Err(InvalidCanaryNodes); }
      var core := Core(control.recordsByVersion, control.versionByDigest, control.history);
      var preview := PreviewOf(fp, core, r.candidate, r.baseline);
      if preview.Err? { return Err(PreviewFailed(preview.error)); }
      if preview.value.severity != Low && !r.allowStaged {
        metrics := metrics.(blocked := SatAdd(metrics.blocked, 1));
        return Err(StagedAckRequired(preview.value.severity));
      }
      if r.canaryMaxParallel == 0 || r.canaryMaxParallel > r.canaryNodes { return Err(InvalidCanaryMaxParallel); }
      if r.canaryNodes < |r.nodes| && (r.fleetMaxParallel == 0 || r.fleetMaxParallel > |r.nodes| - r.canaryNodes) {
        return Err(InvalidFleetMaxParallel);
      }
      return Ok(preview.value);
    }

    method PrepareRollout(fp: Fingerprinter, control: SnapshotControlService, r: CanaryRequest)
      returns (p: Result<Prepared, CanaryError>)
      modifies this
      ensures p == Prepare(fp, control.Model().core, r)
      ensures metrics == if p.Err? && p.error.StagedAckRequired?
                         then old(metrics).(blocked := SatAdd(old(metrics).blocked, 1)) else old(metrics)
    {
      var preview := Screen(fp, control, r);
      if preview.Err? { return Err(preview.error); }
      var plan := PlanStagedRollout(RolloutFor(r), WavesFor(r));
      if plan.Err? { return Err(PlanFailed(plan.error)); }
      return Ok(Prepared(preview.value, plan.value));
    }

    method UndoIfNeeded(control: SnapshotControlService, fleet: FleetRolloutCoordinator, backend: NodeBackend,
                        r: CanaryRequest, decision: Option<Decision>, at: nat)
      returns (undone: Result<AutoRollback, FleetError>)
      modifies fleet, backend
      ensures (backend.log, fleet.Model(), undone)
              == Undone(backend.oracle, control.Model().core, old(backend.log), old(fleet.Model()), r, decision, at)
    {
      match decision {
        case None => undone := Ok(AutoRollback(false, false, None, None));
        case Some(d) =>
          undone := fleet.ExecuteAutoRollbackIfNeeded(control, backend, r.nodes, d, r.actor, r.reason, r.maxDivergence,
                                                      at);
      }
    }

    method Judge(control: SnapshotControlService, fleet: FleetRolloutCoordinator, backend: NodeBackend,
                 r: CanaryRequest, ready: Prepared, rollout: FleetResponse, clock: nat -> nat)
      returns (result: Result<CanaryResponse, CanaryError>)
      modifies this, fleet, backend
      ensures (backend.log, fleet.Model(), metrics, result)
              == Judged(backend.oracle, control.Model().core, old(backend.log), old(fleet.Model()), old(metrics), r,
                        ready, rollout, clock)
    {
      var gates := EvaluateGates(backend, ready.plan.waves, clock);
      var decision := FirstDecision(ready.plan.waves, gates, r.rollbackMode);
      var undone := UndoIfNeeded(control, fleet, backend, r, decision, clock(0));
      if undone.Err? { return Err(FleetFailed(undone.error)); }
      var kept: Option<AutoRollback> := None;
      if undone.value.attempted {
        metrics := metrics.(autoRollbacks := SatAdd(metrics.autoRollbacks, 1));
        kept := Some(undone.value);
      }
      var status := RenderStagedStatusSurface(ready.plan, rollout.convergence, gates, decision, kept);
      metrics := metrics.(applies := SatAdd(metrics.applies, 1));
      return Ok(CanaryResponse(Trim(r.listener), Trim(r.candidate), ready.preview, ready.plan, rollout, gates, decision,
                               kept, status));
    }

    method ApplyCanary(fp: Fingerprinter, control: SnapshotControlService, fleet: FleetRolloutCoordinator,
                       backend: NodeBackend, r: CanaryRequest, clock: nat -> nat)
      returns (result: Result<CanaryResponse, CanaryError>)
      modifies this, fleet, backend
      ensures (backend.log, fleet.Model(), metrics, result)
              == CanaryApplied(fp, backend.oracle, control.Model().core, old(backend.log), old(fleet.Model()),
                               old(metrics), r, clock)
    {
      var ready := PrepareRollout(fp, control, r);
      if ready.Err? { return Err(ready.error); }
      var rollout := fleet.RolloutAt(control, backend, ready.value.plan.rollout, clock(0));
      if rollout.Err? { return Err(FleetFailed(rollout.error)); }
      result := Judge(control, fleet, backend, r, ready.value, rollout.value, clock);
    }
  }

  method EvaluateGates(backend: NodeBackend, waves: seq<Wave>, clock: nat -> nat) returns (gates: Gates)
    ensures gates == GatesFor(backend.oracle, backend.log, waves, clock)
  {
    gates := map[];
    for i := 0 to |waves|
      invariant gates == GatesFor(backend.oracle, backend.log, waves[..i], clock)
    {
      assert waves[..i + 1][..i] == waves[..i];
      var signals := CollectWaveHealthSignals(backend, waves[i]);
      var gate := EvaluateWaveGate(waves[i], signals, clock(0), clock(i + 1));
      gates := gates[waves[i].id := gate];
    }
    assert waves[..|waves|] == waves;
  }
}
