/** The convergence report taken after a fleet action, and the last-known-good version its nodes share. */
module FleetConvergence {
  import opened Basics
  import opened FleetExecution

  datatype NodeState = NodeConverged | NodePending | NodeDiverged | NodeUnavailable

  datatype NodeReport = NodeReport(
    node: string, activeVersion: Option<string>, activeDigest: Option<string>, lastKnownGood: Option<string>,
    observedAt: nat, state: NodeState)

  datatype FleetState = Converged | Progressing | Diverged | Degraded

  datatype Recommendation = ObserveOnly | WaitForConvergence | RetryFailedNodes | RollbackFleet | InvestigatePartition

  datatype Report = Report(
    version: string, digest: string, state: FleetState, recommended: Recommendation, startedAt: nat, deadline: nat,
    exceededBudget: bool, converged: nat, pending: nat, diverged: nat, unavailable: nat, partialRollout: bool,
    nodes: seq<NodeReport>)

  /** The node runs the desired version and digest. */
  predicate OnTarget(status: Result<Status, string>, version: string, digest: string) {
    status.Ok? && status.value.activeVersion == Some(version) && status.value.activeDigest == Some(digest)
  }

  function Surveyed(node: string, status: Result<Status, string>, version: string, digest: string, startedAt: nat,
                    deadline: nat)
    : NodeReport
  {
    match status
    case Ok(s) =>
      NodeReport(s.node, s.activeVersion, s.activeDigest, s.lastKnownGood, s.observedAt,
        if OnTarget(status, version, digest) then NodeConverged
        else if s.observedAt <= deadline then NodePending
        else NodeDiverged)
    case Err(_) => NodeReport(node, None, None, None, startedAt, NodeUnavailable)
  }

  function Survey(oracle: Oracle, log: seq<Call>, nodes: seq<string>, version: string, digest: string, startedAt: nat,
                  deadline: nat)
    : (reports: seq<NodeReport>)
    ensures |reports| == |nodes|
    ensures forall i :: 0 <= i < |nodes| ==>
      reports[i] == Surveyed(nodes[i], oracle.status(log, nodes[i]), version, digest, startedAt, deadline)
  {
    seq(|nodes|, i requires 0 <= i < |nodes| =>
      Surveyed(nodes[i], oracle.status(log, nodes[i]), version, digest, startedAt, deadline))
  }

  function Tally(reports: seq<NodeReport>, state: NodeState): nat {
    if reports == [] then 0
    else Tally(reports[..|reports| - 1], state) + if reports[|reports| - 1].state == state then 1 else 0
  }

  predicate AnyFailed(outcomes: seq<NodeOutcome>) {
    exists i :: 0 <= i < |outcomes| && outcomes[i].result == NodeFailed
  }

  function StateFor(nodeCount: nat, converged: nat, unavailable: nat, diverged: nat, actionFailed: bool): FleetState {
    if converged == nodeCount then Converged
    else if unavailable > 0 || actionFailed then Degraded
    else if diverged > 0 then Diverged
    else Progressing
  }

  function Recommended(state: FleetState, unavailable: nat): Recommendation {
    match state
    case Converged => ObserveOnly
    case Progressing => WaitForConvergence
    case Diverged => RollbackFleet
    case Degraded => if unavailable > 0 then InvestigatePartition else RetryFailedNodes
  }

  function ReportFor(oracle: Oracle, log: seq<Call>, nodes: seq<string>, outcomes: seq<NodeOutcome>, version: string,
                     digest: string, startedAt: nat, maxDivergence: nat): Report
  {
    var deadline := SatAdd(startedAt, maxDivergence);
    var reports := Survey(oracle, log, nodes, version, digest, startedAt, deadline);
    var converged, unavailable := Tally(reports, NodeConverged), Tally(reports, NodeUnavailable);
    var state := StateFor(|nodes|, converged, unavailable, Tally(reports, NodeDiverged), AnyFailed(outcomes));
    Report(version, digest, state, Recommended(state, unavailable), startedAt, deadline,
           startedAt >= deadline && state != Converged, converged, Tally(reports, NodePending),
           Tally(reports, NodeDiverged), unavailable, 0 < converged < |nodes|, reports)
  }

  lemma TallySnoc(reports: seq<NodeReport>, r: NodeReport, state: NodeState)
    ensures Tally(reports + [r], state) == Tally(reports, state) + if r.state == state then 1 else 0
  {
    assert (reports + [r])[..|reports|] == reports;
  }

  method CheckFailed(outcomes: seq<NodeOutcome>) returns (failed: bool)
    ensures failed <==> AnyFailed(outcomes)
  {
    for i := 0 to |outcomes|
      invariant forall j :: 0 <= j < i ==> outcomes[j].result != NodeFailed
    {
      if outcomes[i].result == NodeFailed { return true; }
    }
    failed := false;
  }

  datatype Counts = Counts(converged: nat, pending: nat, diverged: nat, unavailable: nat)

  function Tallies(reports: seq<NodeReport>): Counts {
    Counts(Tally(reports, NodeConverged), Tally(reports, NodePending), Tally(reports, NodeDiverged),
           Tally(reports, NodeUnavailable))
  }

  lemma TalliesSnoc(reports: seq<NodeReport>, r: NodeReport)
    ensures
      var c := Tallies(reports);
      Tallies(reports + [r]) == match r.state
        case NodeConverged => c.(converged := c.converged + 1)
        case NodePending => c.(pending := c.pending + 1)
        case NodeDiverged => c.(diverged := c.diverged + 1)
        case NodeUnavailable => c.(unavailable := c.unavailable + 1)
  {
    TallySnoc(reports, r, NodeConverged);
    TallySnoc(reports, r, NodePending);
    TallySnoc(reports, r, NodeDiverged);
    TallySnoc(reports, r, NodeUnavailable);
  }

  /** Reads every node's status once, counting as it goes. */
  method SurveyEach(backend: NodeBackend, nodes: seq<string>, version: string, digest: string, startedAt: nat,
                    deadline: nat)
    returns (reports: seq<NodeReport>, counts: Counts)
    ensures reports == Survey(backend.oracle, backend.log, nodes, version, digest, startedAt, deadline)
    ensures counts == Tallies(reports)
  {
    reports, counts := [], Counts(0, 0, 0, 0);
    for i := 0 to |nodes|
      invariant reports == Survey(backend.oracle, backend.log, nodes, version, digest, startedAt, deadline)[..i]
      invariant counts == Tallies(reports)
    {
      var r: NodeReport;
      match backend.oracle.status(backend.log, nodes[i]) {
        case Ok(s) =>
          var state: NodeState;
          if s.activeVersion == Some(version) && s.activeDigest == Some(digest) {
            counts, state := counts.(converged := counts.converged + 1), NodeConverged;
          } else if s.observedAt <= deadline {
            counts, state := counts.(pending := counts.pending + 1), NodePending;
          } else {
            counts, state := counts.(diverged := counts.diverged + 1), NodeDiverged;
          }
          r := NodeReport(s.node, s.activeVersion, s.activeDigest, s.lastKnownGood, s.observedAt, state);
        case Err(_) =>
          counts := counts.(unavailable := counts.unavailable + 1);
          r := NodeReport(nodes[i], None, None, None, startedAt, NodeUnavailable);
      }
      TalliesSnoc(reports, r);
      reports := reports + [r];
    }
  }

  method BuildConvergenceReport(backend: NodeBackend, nodes: seq<string>, outcomes: seq<NodeOutcome>, version: string,
                                digest: string, startedAt: nat, maxDivergence: nat) returns (report: Report)
    ensures report == ReportFor(backend.oracle, backend.log, nodes, outcomes, version, digest, startedAt, maxDivergence)
  {
    var deadline := SatAdd(startedAt, maxDivergence);
    var reports, counts := SurveyEach(backend, nodes, version, digest, startedAt, deadline);
    var failed := CheckFailed(outcomes);
    var state := StateFor(|nodes|, counts.converged, counts.unavailable, counts.diverged, failed);
    report := Report(version, digest, state, Recommended(state, counts.unavailable), startedAt, deadline,
      startedAt >= deadline && state != Converged, counts.converged, counts.pending, counts.diverged,
      counts.unavailable, 0 < counts.converged < |nodes|, reports);
  }

  // ----- what the report means -----

  lemma {:induction false} TalliesSum(reports: seq<NodeReport>)
    ensures Tally(reports, NodeConverged) + Tally(reports, NodePending) + Tally(reports, NodeDiverged)
            + Tally(reports, NodeUnavailable) == |reports|
    decreases |reports|
  {
    if reports != [] { TalliesSum(reports[..|reports| - 1]); }
  }

  lemma {:induction false} TallyFull(reports: seq<NodeReport>, state: NodeState)
    ensures Tally(reports, state) <= |reports|
    ensures Tally(reports, state) == |reports| <==> forall i :: 0 <= i < |reports| ==> reports[i].state == state
    decreases |reports|
  {
    if reports != [] {
      TallyFull(reports[..|reports| - 1], state);
      assert reports == reports[..|reports| - 1] + [reports[|reports| - 1]];
    }
  }

  /**
   The four counts account for every node, and the fleet has converged exactly when every node runs
   the desired version and digest, whatever the nodes answered to the action itself.
   */
  lemma ConvergedExactly(oracle: Oracle, log: seq<Call>, nodes: seq<string>, outcomes: seq<NodeOutcome>,
                         version: string, digest: string, startedAt: nat, maxDivergence: nat)
    ensures
      var report := ReportFor(oracle, log, nodes, outcomes, version, digest, startedAt, maxDivergence);
      && report.converged + report.pending + report.diverged + report.unavailable == |nodes|
      && (report.state == Converged <==>
            forall i :: 0 <= i < |nodes| ==> OnTarget(oracle.status(log, nodes[i]), version, digest))
      && (report.state == Converged ==> !report.exceededBudget && !report.partialRollout)
  {
    var report := ReportFor(oracle, log, nodes, outcomes, version, digest, startedAt, maxDivergence);
    TalliesSum(report.nodes);
    TallyFull(report.nodes, NodeConverged);
    assert forall i :: 0 <= i < |nodes| ==>
      (report.nodes[i].state == NodeConverged <==> OnTarget(oracle.status(log, nodes[i]), version, digest));
  }

  /**
   The divergence-budget flag compares the start with its own deadline, so with the non-zero budget a
   request must have it is raised only by a clock at the end of its range.
   */
  lemma BudgetFlagExactly(oracle: Oracle, log: seq<Call>, nodes: seq<string>, outcomes: seq<NodeOutcome>,
                          version: string, digest: string, startedAt: U64, maxDivergence: nat)
    requires maxDivergence > 0
    ensures
      var report := ReportFor(oracle, log, nodes, outcomes, version, digest, startedAt, maxDivergence);
      report.exceededBudget <==> startedAt == U64_MAX && report.state != Converged
  {
  }

  // ----- the shared last-known-good version -----

  /** The version every report names, if there is one. */
  function SharedVersion(reports: seq<NodeReport>): (r: Option<string>)
    ensures forall v :: r == Some(v) <==>
      reports != [] && forall i :: 0 <= i < |reports| ==> reports[i].lastKnownGood == Some(v)
  {
    if reports != [] && forall i :: 0 <= i < |reports| ==> reports[i].lastKnownGood == reports[0].lastKnownGood
    then reports[0].lastKnownGood else None
  }

  method SharedLastKnownGoodVersion(reports: seq<NodeReport>) returns (shared: Option<string>)
    ensures shared == SharedVersion(reports)
  {
    shared := None;
    for i := 0 to |reports|
      invariant i == 0 <==> shared.None?
      invariant forall j :: 0 <= j < i ==> reports[j].lastKnownGood == shared
    {
      var candidate := reports[i].lastKnownGood;
      if candidate.None? {
        assert SharedVersion(reports) != reports[i].lastKnownGood || SharedVersion(reports).None?;
        return None;
      }
      if shared.Some? {
        if shared != candidate {
          assert reports[0].lastKnownGood != reports[i].lastKnownGood;
          return None;
        }
      } else {
        shared := candidate;
      }
    }
  }

  datatype CandidateError = StatusUnavailable(node: string) | NoSharedRollbackCandidate

  /** The candidate after reading some nodes; it is still open only while none was read. */
  function Scanned(oracle: Oracle, log: seq<Call>, nodes: seq<string>): Result<Option<string>, CandidateError> {
    if nodes == [] then Ok(None)
    else
      var last := nodes[|nodes| - 1];
      match Scanned(oracle, log, nodes[..|nodes| - 1])
      case Err(error) => Err(error)
      case Ok(candidate) =>
        match oracle.status(log, last)
        case Err(_) => Err(StatusUnavailable(last))
        case Ok(status) =>
          if status.lastKnownGood.None? || (candidate.Some? && candidate != status.lastKnownGood)
          then Err(NoSharedRollbackCandidate) else Ok(status.lastKnownGood)
  }

  function RollbackCandidate(oracle: Oracle, log: seq<Call>, nodes: seq<string>): Result<string, CandidateError> {
    match Scanned(oracle, log, nodes)
    case Err(error) => Err(error)
    case Ok(None) => Err(NoSharedRollbackCandidate)
    case Ok(Some(version)) => Ok(version)
  }

  lemma {:induction false} ScanStops(oracle: Oracle, log: seq<Call>, nodes: seq<string>, i: nat)
    requires i <= |nodes| && Scanned(oracle, log, nodes[..i]).Err?
    ensures Scanned(oracle, log, nodes) == Scanned(oracle, log, nodes[..i])
    decreases |nodes|
  {
    if i < |nodes| {
      assert nodes[..|nodes| - 1][..i] == nodes[..i];
      ScanStops(oracle, log, nodes[..|nodes| - 1], i);
    } else {
      assert nodes[..i] == nodes;
    }
  }

  method SharedRollbackCandidate(backend: NodeBackend, nodes: seq<string>) returns (r: Result<string, CandidateError>)
    ensures r == RollbackCandidate(backend.oracle, backend.log, nodes)
  {
    var candidate: Option<string> := None;
    for i := 0 to |nodes|
      invariant Scanned(backend.oracle, backend.log, nodes[..i]) == Ok(candidate)
    {
      assert nodes[..i + 1][..i] == nodes[..i];
      var status := backend.oracle.status(backend.log, nodes[i]);
      if status.Err? {
        ScanStops(backend.oracle, backend.log, nodes, i + 1);
        return Err(StatusUnavailable(nodes[i]));
      }
      var lastKnownGood := status.value.lastKnownGood;
      if lastKnownGood.None? || (candidate.Some? && candidate != lastKnownGood) {
        ScanStops(backend.oracle, backend.log, nodes, i + 1);
        return Err(NoSharedRollbackCandidate);
      }
      candidate := lastKnownGood;
    }
    assert nodes[..|nodes|] == nodes;
    match candidate {
      case Some(version) => r := Ok(version);
      case None => r := Err(NoSharedRollbackCandidate);
    }
  }

  /** The node answers its status and names `v` as last known good. */
  predicate Names(status: Result<Status, string>, v: string) {
    status.Ok? && status.value.lastKnownGood == Some(v)
  }

  lemma {:induction false} ScanMeaning(oracle: Oracle, log: seq<Call>, nodes: seq<string>, v: string)
    ensures Scanned(oracle, log, nodes) == Ok(Some(v)) <==>
      nodes != [] && forall i :: 0 <= i < |nodes| ==> Names(oracle.status(log, nodes[i]), v)
    ensures Scanned(oracle, log, nodes) == Ok(None) <==> nodes == []
    decreases |nodes|
  {
    if nodes != [] {
      var front := nodes[..|nodes| - 1];
      ScanMeaning(oracle, log, front, v);
      assert nodes == front + [nodes[|nodes| - 1]];
      var scan := Scanned(oracle, log, front);
      if scan.Ok? && scan.value.Some? { ScanMeaning(oracle, log, front, scan.value.value); }
    }
  }

  /**
   Agreement: with the backend unchanged, a report names a shared last-known-good version exactly when
   a rollback of the same nodes without a target would choose it.
   */
  lemma SharedVersionIsCandidate(oracle: Oracle, log: seq<Call>, nodes: seq<string>, outcomes: seq<NodeOutcome>,
                                 version: string, digest: string, startedAt: nat, maxDivergence: nat, v: string)
    ensures
      var report := ReportFor(oracle, log, nodes, outcomes, version, digest, startedAt, maxDivergence);
      SharedVersion(report.nodes) == Some(v) <==> RollbackCandidate(oracle, log, nodes) == Ok(v)
  {
    var report := ReportFor(oracle, log, nodes, outcomes, version, digest, startedAt, maxDivergence);
    ScanMeaning(oracle, log, nodes, v);
    assert forall i :: 0 <= i < |nodes| ==>
      (report.nodes[i].lastKnownGood == Some(v) <==> Names(oracle.status(log, nodes[i]), v));
    assert forall i :: 0 <= i < |nodes| ==>
      Names(oracle.status(log, nodes[i]), v) ==> report.nodes[i].lastKnownGood == Some(v);
  }
}
