/** The fleet coordinator: validated rollouts and rollbacks over many nodes, and the automatic rollback. */
module FleetRollout {
  import opened Basics
  import opened Registry
  import opened Rollout
  import opened FleetExecution
  import opened FleetConvergence
  import opened FleetStaged
  import opened FleetGate
  import opened FleetStatus

  const MAX_FLEET_NODES: nat := 128
  const MAX_NODE_ID_LEN: nat := 128

  datatype InvalidFleet =
    | EmptyNodeIds | TooManyNodes | ZeroMaxAllowedDivergenceMs | EmptyNodeId | NodeIdTooLong
    | DuplicateNodeId(node: string) | ZeroCanaryNodes

  datatype FleetError =
    | InvalidFleetRequest(invalid: InvalidFleet)
    | InvalidFleetRollout
    | UnknownFleetVersion(version: string)
    | NoCandidate(error: CandidateError)

  datatype FleetEntry = FleetEntry(
    action: Action, strategy: Strategy, version: string, digest: string, state: FleetState, converged: nat,
    pending: nat, diverged: nat, unavailable: nat, at: nat)

  datatype FleetMetrics = FleetMetrics(
    rollouts: nat, rollbacks: nat, converged: nat, diverged: nat, degraded: nat, partialFailures: nat, audited: nat,
    historySize: nat)

  datatype Ledger = Ledger(history: seq<FleetEntry>, metrics: FleetMetrics)

  const FRESH_LEDGER: Ledger := Ledger([], FleetMetrics(0, 0, 0, 0, 0, 0, 0, 0))

  datatype FleetResponse = FleetResponse(
    action: Action, strategy: Strategy, version: string, digest: string, sharedLastKnownGood: Option<string>,
    convergence: Report, outcomes: seq<NodeOutcome>)

  // ----- validation -----

  function NodesFault(nodes: seq<string>): Option<InvalidFleet> {
    if nodes == [] then None
    else
      var front, last := nodes[..|nodes| - 1], Trim(nodes[|nodes| - 1]);
      match NodesFault(front)
      case Some(fault) => Some(fault)
      case None =>
        if last == [] then Some(EmptyNodeId)
        else if Utf8Len(last) > MAX_NODE_ID_LEN then Some(NodeIdTooLong)
        else if last in Trimmed(front) then Some(DuplicateNodeId(last))
        else None
  }

  function FleetFault(nodes: seq<string>, strategy: Strategy, maxDivergence: nat): Option<InvalidFleet> {
    if nodes == [] then Some(EmptyNodeIds)
    else if |nodes| > MAX_FLEET_NODES then Some(TooManyNodes)
    else if maxDivergence == 0 then Some(ZeroMaxAllowedDivergenceMs)
    else match NodesFault(nodes)
      case Some(fault) => Some(fault)
      case None => if strategy == Canary(0) then Some(ZeroCanaryNodes) else None
  }

  lemma {:induction false} FaultStops(nodes: seq<string>, i: nat)
    requires i <= |nodes| && NodesFault(nodes[..i]).Some?
    ensures NodesFault(nodes) == NodesFault(nodes[..i])
    decreases |nodes|
  {
    if i < |nodes| {
      assert nodes[..|nodes| - 1][..i] == nodes[..i];
      FaultStops(nodes[..|nodes| - 1], i);
    } else {
      assert nodes[..i] == nodes;
    }
  }

  method ValidateFleetRequest(nodes: seq<string>, strategy: Strategy, maxDivergence: nat)
    returns (fault: Option<InvalidFleet>)
    ensures fault == FleetFault(nodes, strategy, maxDivergence)
  {
    if nodes == [] { return Some(EmptyNodeIds); }
    if |nodes| > MAX_FLEET_NODES { return Some(TooManyNodes); }
    if maxDivergence == 0 { return Some(ZeroMaxAllowedDivergenceMs); }
    var seen: set<string> := {};
    for i := 0 to |nodes|
      invariant NodesFault(nodes[..i]) == None
      invariant forall n :: n in seen <==> n in Trimmed(nodes[..i])
    {
      assert nodes[..i + 1][..i] == nodes[..i];
      assert Trimmed(nodes[..i + 1]) == Trimmed(nodes[..i]) + [Trim(nodes[i])];
      var node := Trim(nodes[i]);
      if node == [] {
        FaultStops(nodes, i + 1);
        return Some(EmptyNodeId);
      }
      if Utf8Len(node) > MAX_NODE_ID_LEN {
        FaultStops(nodes, i + 1);
        return Some(NodeIdTooLong);
      }
      if node in seen {
        FaultStops(nodes, i + 1);
        return Some(DuplicateNodeId(node));
      }
      seen := seen + {node};
    }
    assert nodes[..|nodes|] == nodes;
    fault := if strategy == Canary(0) then Some(ZeroCanaryNodes) else None;
  }

  /** A node list is accepted exactly when its trimmed ids are distinct, non-empty and short enough. */
  lemma {:induction false} NodesAcceptedExactly(nodes: seq<string>)
    ensures NodesFault(nodes) == None <==>
      && NoDuplicates(Trimmed(nodes))
      && forall i :: 0 <= i < |nodes| ==> Trim(nodes[i]) != [] && Utf8Len(Trim(nodes[i])) <= MAX_NODE_ID_LEN
    decreases |nodes|
  {
    if nodes != [] {
      var front := nodes[..|nodes| - 1];
      NodesAcceptedExactly(front);
      assert Trimmed(nodes) == Trimmed(front) + [Trim(nodes[|nodes| - 1])];
      NoDuplicatesConcat(Trimmed(front), [Trim(nodes[|nodes| - 1])]);
    }
  }

  // ----- actions -----

  function Recorded(ledger: Ledger, job: Job, digest: string, report: Report): Ledger {
    var m := ledger.metrics;
    var entry := FleetEntry(job.action, job.strategy, job.version, digest, report.state, report.converged,
                            report.pending, report.diverged, report.unavailable, job.at);
    var counted := match job.action
      case DoRollout => m.(rollouts := SatAdd(m.rollouts, 1))
      case DoRollback => m.(rollbacks := SatAdd(m.rollbacks, 1));
    var judged := match report.state
      case Converged => counted.(converged := SatAdd(m.converged, 1))
      case Diverged => counted.(diverged := SatAdd(m.diverged, 1))
      case Degraded => counted.(degraded := SatAdd(m.degraded, 1), partialFailures := SatAdd(m.partialFailures, 1))
      case Progressing => counted;
    Ledger(ledger.history + [entry], judged.(audited := SatAdd(m.audited, 1), historySize := |ledger.history| + 1))
  }

  function ResponseTo(oracle: Oracle, log: seq<Call>, job: Job, nodes: seq<string>, digest: string, maxDivergence: nat)
    : FleetResponse
  {
    var p := Progressed(oracle, log, job, nodes);
    var report := ReportFor(oracle, p.log, nodes, p.outcomes, job.version, digest, job.at, maxDivergence);
    FleetResponse(job.action, job.strategy, job.version, digest, SharedVersion(report.nodes), report, p.outcomes)
  }

  type FleetOutcome = (seq<Call>, Ledger, Result<FleetResponse, FleetError>)

  function Carried(oracle: Oracle, log: seq<Call>, ledger: Ledger, job: Job, nodes: seq<string>, digest: string,
                   maxDivergence: nat)
    : FleetOutcome
  {
    var response := ResponseTo(oracle, log, job, nodes, digest, maxDivergence);
    (Progressed(oracle, log, job, nodes).log, Recorded(ledger, job, digest, response.convergence), Ok(response))
  }

  function FleetRolledOut(oracle: Oracle, core: Core, log: seq<Call>, ledger: Ledger, r: FleetRequest, at: nat)
    : FleetOutcome
  {
    var fault := FleetFault(r.nodes, r.strategy, r.maxDivergence);
    if fault.Some? then (log, ledger, Err(InvalidFleetRequest(fault.value)))
    else if !RequestOk(r.version, r.actor, r.reason) then (log, ledger, Err(InvalidFleetRollout))
    else if r.version !in core.records then (log, ledger, Err(UnknownFleetVersion(r.version)))
    else
      var published := core.records[r.version];
      Carried(oracle, log, ledger, Job(DoRollout, r.strategy, published.version, r.actor, r.reason, at), r.nodes,
              published.digest, r.maxDivergence)
  }

  datatype FleetRollbackRequest = FleetRollbackRequest(
    target: Option<string>, actor: Option<string>, reason: Option<string>, nodes: seq<string>, maxDivergence: nat)

  function FleetTarget(oracle: Oracle, log: seq<Call>, r: FleetRollbackRequest): Result<string, FleetError> {
    match r.target
    case Some(version) => if RequestOk(version, r.actor, r.reason) then Ok(version) else Err(InvalidFleetRollout)
    case None =>
      match RollbackCandidate(oracle, log, r.nodes)
      case Ok(version) => Ok(version)
      case Err(error) => Err(NoCandidate(error))
  }

  function FleetRolledBack(oracle: Oracle, core: Core, log: seq<Call>, ledger: Ledger, r: FleetRollbackRequest, at: nat)
    : FleetOutcome
  {
    var fault := FleetFault(r.nodes, Sequential, r.maxDivergence);
    if fault.Some? then (log, ledger, Err(InvalidFleetRequest(fault.value)))
    else match FleetTarget(oracle, log, r)
      case Err(error) => (log, ledger, Err(error))
      case Ok(version) =>
        if version !in core.records then (log, ledger, Err(UnknownFleetVersion(version)))
        else
          var published := core.records[version];
          Carried(oracle, log, ledger, Job(DoRollback, Sequential, published.version, r.actor, r.reason, at), r.nodes,
                  published.digest, r.maxDivergence)
  }

  const AFTER: string := "automatic rollback after "

  function RollbackReason(reason: Option<string>, detail: string): Option<string> {
    match reason
    case Some(existing) => Some(existing + "; " + AFTER + detail)
    case None => Some(AFTER + detail)
  }

  type AutoOutcome = (seq<Call>, Ledger, Result<AutoRollback, FleetError>)

  function AutoRolledBack(oracle: Oracle, core: Core, log: seq<Call>, ledger: Ledger, nodes: seq<string>,
                          decision: Decision, actor: Option<string>, reason: Option<string>, maxDivergence: nat,
                          at: nat)
    : AutoOutcome
  {
    if !decision.shouldAutoRollback then (log, ledger, Ok(AutoRollback(false, false, None, None)))
    else
      var r := FleetRollbackRequest(None, actor, RollbackReason(reason, decision.detail), nodes, maxDivergence);
      var (log', ledger', result) := FleetRolledBack(oracle, core, log, ledger, r, at);
      match result
      case Err(error) => (log', ledger', Err(error))
      case Ok(response) =>
        (log', ledger', Ok(AutoRollback(true, response.convergence.state == Converged, Some(response.version),
                                        Some(response.convergence.state))))
  }

  class FleetRolloutCoordinator {
    var history: seq<FleetEntry>
    var metrics: FleetMetrics

    ghost function Model(): Ledger
      reads this
    {
      Ledger(history, metrics)
    }

    constructor ()
      ensures Model() == FRESH_LEDGER
    {
      history, metrics := [], FleetMetrics(0, 0, 0, 0, 0, 0, 0, 0);
    }

    method Record(job: Job, digest: string, report: Report)
      modifies this
      ensures Model() == Recorded(old(Model()), job, digest, report)
    {
      history := history + [FleetEntry(job.action, job.strategy, job.version, digest, report.state, report.converged,
                                       report.pending, report.diverged, report.unavailable, job.at)];
      metrics := metrics.(audited := SatAdd(metrics.audited, 1), historySize := |history|);
      match job.action {
        case DoRollout => metrics := metrics.(rollouts := SatAdd(metrics.rollouts, 1));
        case DoRollback => metrics := metrics.(rollbacks := SatAdd(metrics.rollbacks, 1));
      }
      match report.state {
        case Converged => metrics := metrics.(converged := SatAdd(metrics.converged, 1));
        case Diverged => metrics := metrics.(diverged := SatAdd(metrics.diverged, 1));
        case Degraded =>
          metrics := metrics.(degraded := SatAdd(metrics.degraded, 1));
          metrics := metrics.(partialFailures := SatAdd(metrics.partialFailures, 1));
        case Progressing =>
      }
    }

    method ExecuteAction(backend: NodeBackend, job: Job, nodes: seq<string>, digest: string, maxDivergence: nat)
      returns (r: Result<FleetResponse, FleetError>)
      modifies this, backend
      ensures (backend.log, Model(), r)
              == Carried(backend.oracle, old(backend.log), old(Model()), job, nodes, digest, maxDivergence)
    {
      var outcomes := ExecuteEach(backend, job, nodes);
      var report := BuildConvergenceReport(backend, nodes, outcomes, job.version, digest, job.at, maxDivergence);
      var shared := SharedLastKnownGoodVersion(report.nodes);
      Record(job, digest, report);
      r := Ok(FleetResponse(job.action, job.strategy, job.version, digest, shared, report, outcomes));
    }

    method RolloutAt(control: SnapshotControlService, backend: NodeBackend, request: FleetRequest, at: nat)
      returns (r: Result<FleetResponse, FleetError>)
      modifies this, backend
      ensures (backend.log, Model(), r)
              == FleetRolledOut(backend.oracle, control.Model().core, old(backend.log), old(Model()), request, at)
    {
      var fault := ValidateFleetRequest(request.nodes, request.strategy, request.maxDivergence);
      if fault.Some? {
        return Err(InvalidFleetRequest(fault.value));
      }
      if !RequestOk(request.version, request.actor, request.reason) {
        return Err(InvalidFleetRollout);
      }
      if request.version !in control.recordsByVersion {
        return Err(UnknownFleetVersion(request.version));
      }
      var published := control.recordsByVersion[request.version];
      r := ExecuteAction(backend,
                         Job(DoRollout, request.strategy, published.version, request.actor, request.reason, at),
                         request.nodes, published.digest, request.maxDivergence);
    }

    method RollbackAt(control: SnapshotControlService, backend: NodeBackend, request: FleetRollbackRequest, at: nat)
      returns (r: Result<FleetResponse, FleetError>)
      modifies this, backend
      ensures (backend.log, Model(), r)
              == FleetRolledBack(backend.oracle, control.Model().core, old(backend.log), old(Model()), request, at)
    {
      var fault := ValidateFleetRequest(request.nodes, Sequential, request.maxDivergence);
      if fault.Some? {
        return Err(InvalidFleetRequest(fault.value));
      }
      var version: string;
      match request.target {
        case Some(named) =>
          if !RequestOk(named, request.actor, request.reason) {
            return Err(InvalidFleetRollout);
          }
          version := named;
        case None =>
          var candidate := SharedRollbackCandidate(backend, request.nodes);
          if candidate.Err? {
            return Err(NoCandidate(candidate.error));
          }
          version := candidate.value;
      }
      if version !in control.recordsByVersion {
        return Err(UnknownFleetVersion(version));
      }
      var published := control.recordsByVersion[version];
      r := ExecuteAction(backend, Job(DoRollback, Sequential, published.version, request.actor, request.reason, at),
                         request.nodes, published.digest, request.maxDivergence);
    }

    method ExecuteAutoRollbackIfNeeded(control: SnapshotControlService, backend: NodeBackend, nodes: seq<string>,
                                       decision: Decision, actor: Option<string>, reason: Option<string>,
                                       maxDivergence: nat, at: nat)
      returns (r: Result<AutoRollback, FleetError>)
      modifies this, backend
      ensures (backend.log, Model(), r)
        == AutoRolledBack(backend.oracle, control.Model().core, old(backend.log), old(Model()),
                                                          nodes, decision, actor, reason, maxDivergence, at)
    {
      if !decision.shouldAutoRollback {
        return Ok(AutoRollback(false, false, None, None));
      }
      var request := FleetRollbackRequest(None, actor, RollbackReason(reason, decision.detail), nodes, maxDivergence);
      var response := RollbackAt(control, backend, request, at);
      if response.Err? {
        return Err(response.error);
      }
      var state := response.value.convergence.state;
      return Ok(AutoRollback(true, state == Converged, Some(response.value.version), Some(state)));
    }
  }

  // ----- what the coordinator keeps -----

  /** Every action is counted once, until a counter could saturate. */
  predicate Balanced(ledger: Ledger) {
    && ledger.metrics.historySize == |ledger.history|
    && (|ledger.history| <= U64_MAX ==>
          && ledger.metrics.rollouts + ledger.metrics.rollbacks == |ledger.history| == ledger.metrics.audited
          && ledger.metrics.converged + ledger.metrics.diverged + ledger.metrics.degraded <= |ledger.history|
          && ledger.metrics.partialFailures == ledger.metrics.degraded)
  }

  lemma CarriedKeepsBalance(oracle: Oracle, log: seq<Call>, ledger: Ledger, job: Job, nodes: seq<string>,
                            digest: string, maxDivergence: nat)
    requires Balanced(ledger)
    ensures
      var ledger' := Carried(oracle, log, ledger, job, nodes, digest, maxDivergence).1;
      Balanced(ledger') && ledger.history <= ledger'.history
  {
  }

  datatype FleetOp = RolloutOp(rollout: FleetRequest, at: nat) | RollbackOp(rollback: FleetRollbackRequest, at: nat)

  function FleetStep(oracle: Oracle, core: Core, log: seq<Call>, ledger: Ledger, op: FleetOp): FleetOutcome {
    match op
    case RolloutOp(r, at) => FleetRolledOut(oracle, core, log, ledger, r, at)
    case RollbackOp(r, at) => FleetRolledBack(oracle, core, log, ledger, r, at)
  }

  function FleetRun(oracle: Oracle, core: Core, log: seq<Call>, ledger: Ledger, ops: seq<FleetOp>): (seq<Call>, Ledger)
    decreases ops
  {
    if ops == [] then (log, ledger)
    else
      var (log', ledger', _) := FleetStep(oracle, core, log, ledger, ops[0]);
      FleetRun(oracle, core, log', ledger', ops[1..])
  }

  lemma StepKeepsBalance(oracle: Oracle, core: Core, log: seq<Call>, ledger: Ledger, op: FleetOp)
    requires Balanced(ledger)
    ensures
      var ledger' := FleetStep(oracle, core, log, ledger, op).1;
      Balanced(ledger') && ledger.history <= ledger'.history
  {
    match op {
      case RolloutOp(r, at) =>
        if r.version in core.records {
          var published := core.records[r.version];
          CarriedKeepsBalance(oracle, log, ledger, Job(DoRollout, r.strategy, published.version, r.actor, r.reason, at),
                              r.nodes, published.digest, r.maxDivergence);
        }
      case RollbackOp(r, at) =>
        var target := FleetTarget(oracle, log, r);
        if target.Ok? && target.value in core.records {
          var published := core.records[target.value];
          CarriedKeepsBalance(oracle, log, ledger,
                              Job(DoRollback, Sequential, published.version, r.actor, r.reason, at),
                              r.nodes, published.digest, r.maxDivergence);
        }
    }
  }

  /** Over every run the ledger stays balanced and its history only grows. */
  lemma {:induction false} LedgerBalanced(oracle: Oracle, core: Core, log: seq<Call>, ledger: Ledger, ops: seq<FleetOp>)
    requires Balanced(ledger)
    ensures Balanced(FleetRun(oracle, core, log, ledger, ops).1)
    ensures ledger.history <= FleetRun(oracle, core, log, ledger, ops).1.history
    decreases ops
  {
    if ops != [] {
      StepKeepsBalance(oracle, core, log, ledger, ops[0]);
      var (log', ledger', _) := FleetStep(oracle, core, log, ledger, ops[0]);
      LedgerBalanced(oracle, core, log', ledger', ops[1..]);
    }
  }

  /** Refused requests contact nobody and leave no trace. */
  lemma RefusedLeavesNoTrace(oracle: Oracle, core: Core, log: seq<Call>, ledger: Ledger, r: FleetRequest, at: nat)
    ensures
      var (log', ledger', result) := FleetRolledOut(oracle, core, log, ledger, r, at);
      && (result.Err? ==> log' == log && ledger' == ledger)
      && (result.Ok? <==>
            FleetFault(r.nodes, r.strategy, r.maxDivergence) == None && RequestOk(r.version, r.actor, r.reason)
              && r.version in core.records)
  {
  }

  /**
   The record a rollback without a target would send: of the shared version, if the nodes are acceptable and it is
   published.
   */
  function SharedRecord(oracle: Oracle, core: Core, log: seq<Call>, nodes: seq<string>, maxDivergence: nat)
    : Result<Record, FleetError>
  {
    var fault := FleetFault(nodes, Sequential, maxDivergence);
    if fault.Some? then Err(InvalidFleetRequest(fault.value))
    else match RollbackCandidate(oracle, log, nodes)
      case Err(error) => Err(NoCandidate(error))
      case Ok(version) => if version in core.records then Ok(core.records[version])
                          else Err(UnknownFleetVersion(version))
  }

  /**
   An automatic rollback happens only when the decision asks for it. It is refused, without trace,
   exactly when the nodes are unacceptable or share no published last-known-good version; otherwise it
   goes to that version, and has succeeded exactly when afterwards every node runs it.
   */
  lemma AutoRollbackMeaning(oracle: Oracle, core: Core, log: seq<Call>, ledger: Ledger, nodes: seq<string>,
                            decision: Decision, actor: Option<string>, reason: Option<string>, maxDivergence: nat,
                            at: nat)
    ensures
      var (log', ledger', result) :=
        AutoRolledBack(oracle, core, log, ledger, nodes, decision, actor, reason, maxDivergence, at);
      var published := SharedRecord(oracle, core, log, nodes, maxDivergence);
      && (!decision.shouldAutoRollback ==>
          log' == log && ledger' == ledger && result == Ok(AutoRollback(false, false, None, None)))
      && (decision.shouldAutoRollback && published.Err? ==>
          log' == log && ledger' == ledger && result == Err(published.error))
      && (decision.shouldAutoRollback && published.Ok? ==>
            && result.Ok? && result.value.attempted && result.value.target == Some(published.value.version)
            && (result.value.succeeded <==>
                  forall i :: 0 <= i < |nodes| ==>
                    OnTarget(oracle.status(log', nodes[i]), published.value.version, published.value.digest)))
  {
    var published := SharedRecord(oracle, core, log, nodes, maxDivergence);
    if decision.shouldAutoRollback && published.Ok? {
      var r := FleetRollbackRequest(None, actor, RollbackReason(reason, decision.detail), nodes, maxDivergence);
      var (log', ledger', result) := FleetRolledBack(oracle, core, log, ledger, r, at);
      ConvergedExactly(oracle, log', nodes, result.value.outcomes, published.value.version, published.value.digest, at,
                       maxDivergence);
    }
  }

  /** The calls of an automatic rollback: rollbacks to that version, to the first nodes in order. */
  lemma AutoRollbackCalls(oracle: Oracle, core: Core, log: seq<Call>, ledger: Ledger, nodes: seq<string>,
                          decision: Decision, actor: Option<string>, reason: Option<string>, maxDivergence: nat,
                          at: nat)
    ensures
      var (log', _, result) := AutoRolledBack(oracle, core, log, ledger, nodes, decision, actor, reason, maxDivergence,
                                              at);
      && log <= log'
      && (log' != log ==> decision.shouldAutoRollback && result.Ok?)
      && forall call :: call in log'[|log|..] ==>
           call.action == DoRollback && call.node in nodes && Some(call.version) == result.value.target
  {
    var published := SharedRecord(oracle, core, log, nodes, maxDivergence);
    if decision.shouldAutoRollback && published.Ok? {
      var job := Job(DoRollback, Sequential, published.value.version, actor, RollbackReason(reason, decision.detail),
                     at);
      CallsOfJob(oracle, log, job, nodes);
    }
  }

  /** Every call an action makes is that action, at one of its nodes. */
  lemma CallsOfJob(oracle: Oracle, log: seq<Call>, job: Job, nodes: seq<string>)
    ensures
      var after := Progressed(oracle, log, job, nodes).log;
      log <= after && forall call :: call in after[|log|..] ==> call.node in nodes && call == CallFor(job, call.node)
  {
    ExecutionShape(oracle, log, job, nodes);
    var after := Progressed(oracle, log, job, nodes).log;
    var k := |after| - |log|;
    assert after[|log|..] == CallsFor(job, nodes[..k]);
    forall call | call in after[|log|..] ensures call.node in nodes && call == CallFor(job, call.node) {
      var j :| 0 <= j < k && CallsFor(job, nodes[..k])[j] == call;
      assert nodes[j] == call.node;
    }
  }
}
