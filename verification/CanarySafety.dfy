/** What a canary rollout guarantees as a whole, for every backend, clock and policy. */
module CanarySafety {
  import opened Basics
  import opened Registry
  import opened Rollout
  import opened SnapshotDiff
  import opened FleetExecution
  import opened FleetConvergence
  import opened FleetStaged
  import opened FleetGate
  import opened FleetStatus
  import opened FleetRollout
  import opened ListenerCanary

  /** The node could not be reached or refused: the outcome a backend error leaves. */
  predicate BackendError(o: NodeOutcome) {
    o.result == NodeFailed && o.activeVersion.None?
  }

  lemma DistinctNodes(nodes: seq<string>)
    requires NodesFault(nodes) == None
    ensures NoDuplicates(nodes)
  {
    NodesAcceptedExactly(nodes);
    var t := Trimmed(nodes);
    assert forall i, j :: 0 <= i < j < |nodes| ==> t[i] != t[j];
  }

  lemma PreparedPlan(fp: Fingerprinter, core: Core, r: CanaryRequest)
    requires Prepare(fp, core, r).Ok?
    ensures
      var plan := Prepare(fp, core, r).value.plan;
      0 < r.canaryNodes <= |r.nodes| && plan.rollout == RolloutFor(r) && plan.waves == WavesFor(r)
      && PlanFor(RolloutFor(r), WavesFor(r)) == Ok(plan)
  {
  }

  /** The waves, joined, are the requested nodes, and their ids differ. */
  lemma WavesJoinToNodes(r: CanaryRequest)
    requires r.canaryNodes <= |r.nodes|
    ensures
      var waves := WavesFor(r);
      && 1 <= |waves| <= 2 && (|waves| == 1 <==> r.canaryNodes == |r.nodes|)
      && waves[0].nodes == r.nodes[..r.canaryNodes]
      && waves[0].nodes + (if |waves| == 1 then [] else waves[1].nodes) == r.nodes
      && (|waves| == 2 ==> waves[0].id != waves[1].id)
  {
    var name := Trim(r.listener);
    assert |name + "-canary"| != |name + "-fleet"|;
    assert r.nodes[..r.canaryNodes] + r.nodes[r.canaryNodes..] == r.nodes;
  }

  lemma BackendErrorShows(node: string, answer: Result<RolloutResponse, string>)
    ensures BackendError(OutcomeFor(node, answer)) <==> answer.Err?
    ensures !BackendError(Skipped(node))
  {
  }

  lemma OutcomeErrors(oracle: Oracle, log: seq<Call>, job: Job, nodes: seq<string>, p: Progress, k: int, i: int)
    requires Shape(oracle, log, job, nodes, p, k) && 0 <= i < |nodes|
    ensures p.outcomes[i].node == nodes[i]
    ensures BackendError(p.outcomes[i]) <==> i < k && Answer(oracle, log, job, nodes, i).Err?
  {
    BackendErrorShows(nodes[i], Answer(oracle, log, job, nodes, i));
  }

  lemma SomeErrorShows(oracle: Oracle, log: seq<Call>, job: Job, nodes: seq<string>, p: Progress, k: int, c: nat)
    requires Shape(oracle, log, job, nodes, p, k) && job.strategy == Canary(c) && c <= |nodes|
    ensures (exists i :: 0 <= i < c && BackendError(p.outcomes[i])) <==>
      exists i :: 0 <= i < c && Answer(oracle, log, job, nodes, i).Err?
  {
    if i :| 0 <= i < c && BackendError(p.outcomes[i]) {
      OutcomeErrors(oracle, log, job, nodes, p, k, i);
    }
    if i :| 0 <= i < c && Answer(oracle, log, job, nodes, i).Err? {
      FirstErrorShows(oracle, log, job, nodes, p, k, i);
      OutcomeErrors(oracle, log, job, nodes, p, k, k - 1);
    }
  }

  /** A canary outcome is a backend error exactly when some canary node's backend fails. */
  lemma ErrorsShow(oracle: Oracle, log: seq<Call>, job: Job, nodes: seq<string>, c: nat)
    requires job.strategy == Canary(c) && c <= |nodes|
    ensures
      var p := Progressed(oracle, log, job, nodes);
      && |p.outcomes| == |nodes| && (forall i :: 0 <= i < |nodes| ==> p.outcomes[i].node == nodes[i])
      && ((exists i :: 0 <= i < c && BackendError(p.outcomes[i])) <==>
          exists i :: 0 <= i < c && Answer(oracle, log, job, nodes, i).Err?)
  {
    var k := ExecutionHasShape(oracle, log, job, nodes);
    var p := Progressed(oracle, log, job, nodes);
    SomeErrorShows(oracle, log, job, nodes, p, k, c);
    forall i | 0 <= i < |nodes| ensures p.outcomes[i].node == nodes[i] {
      OutcomeErrors(oracle, log, job, nodes, p, k, i);
    }
  }

  lemma FirstErrorShows(oracle: Oracle, log: seq<Call>, job: Job, nodes: seq<string>, p: Progress, k: int, i: int)
    requires Shape(oracle, log, job, nodes, p, k) && 0 <= i < |nodes| && Stops(oracle, log, job, nodes, i)
    ensures 0 < k <= |nodes| && k - 1 <= i && Answer(oracle, log, job, nodes, k - 1).Err?
  {
    if i >= k {
      assert Stops(oracle, log, job, nodes, k - 1);
    }
  }

  /**
   Canary isolation, seen from the response. Outcomes match the nodes one to one in order. If a canary
   node's outcome is a backend error then only canary nodes were contacted; otherwise every node was.
   */
  lemma IsolationFromOutcomes(oracle: Oracle, log: seq<Call>, job: Job, nodes: seq<string>)
    requires job.strategy.Canary? && job.strategy.canaryNodes <= |nodes| && NoDuplicates(nodes)
    ensures
      var p := Progressed(oracle, log, job, nodes);
      var c := job.strategy.canaryNodes;
      && |p.outcomes| == |nodes| && (forall i :: 0 <= i < |nodes| ==> p.outcomes[i].node == nodes[i]) && log <= p.log
      && ((exists i :: 0 <= i < c && BackendError(p.outcomes[i])) ==>
            forall call :: call in p.log[|log|..] ==> call.node in nodes[..c] && call.node !in nodes[c..])
      && ((forall i :: 0 <= i < c ==> !BackendError(p.outcomes[i])) ==> p.log == log + CallsFor(job, nodes))
  {
    CanaryIsolation(oracle, log, job, nodes);
    ErrorsShow(oracle, log, job, nodes, job.strategy.canaryNodes);
  }

  lemma GatesOf(oracle: Oracle, log: seq<Call>, waves: seq<Wave>, clock: nat -> nat)
    requires 1 <= |waves| <= 2 && (|waves| == 2 ==> waves[0].id != waves[1].id)
    ensures
      var gates := GatesFor(oracle, log, waves, clock);
      && (forall i :: 0 <= i < |waves| ==> waves[i].id in gates)
      && gates[waves[0].id] == Evaluate(waves[0], Collected(oracle, log, waves[0]), clock(0), clock(1))
  {
    assert waves[..1][..0] == [];
    var first := GatesFor(oracle, log, waves[..1], clock);
    assert first == GatesFor(oracle, log, [], clock)[waves[0].id :=
        Evaluate(waves[0], Collected(oracle, log, waves[0]), clock(0), clock(1))];
    if |waves| == 1 {
      assert waves[..1] == waves;
    }
  }

  /** The canary wave is required, past its deadline and has an unhealthy node. */
  ghost predicate CanaryCondemned(oracle: Oracle, log: seq<Call>, wave: Wave, clock: nat -> nat) {
    Condemned(wave, Collected(oracle, log, wave), clock(0), clock(1))
  }

  /** The decision is about the canary wave alone. */
  lemma CanaryDecides(oracle: Oracle, log: seq<Call>, waves: seq<Wave>, clock: nat -> nat, mode: RollbackMode)
    requires 1 <= |waves| <= 2 && (|waves| == 2 ==> waves[0].id != waves[1].id)
    ensures
      var decision := FirstDecision(waves, GatesFor(oracle, log, waves, clock), mode);
      && decision.Some? && decision.value.waveId == waves[0].id
      && (decision.value.shouldAbort <==> CanaryCondemned(oracle, log, waves[0], clock))
      && (decision.value.shouldAutoRollback <==>
          CanaryCondemned(oracle, log, waves[0], clock) && mode == OnFailedOrTimedOut)
  {
    GatesOf(oracle, log, waves, clock);
    GateThenDecision(waves[0], Collected(oracle, log, waves[0]), clock(0), clock(1), mode);
  }

  /** Every wave of a canary rollout has a gate, so none is ever shown as pending or blocked. */
  lemma NothingPendingOrBlocked(oracle: Oracle, log: seq<Call>, waves: seq<Wave>, clock: nat -> nat,
                                abortId: Option<string>, j: int)
    requires 1 <= |waves| <= 2 && (|waves| == 2 ==> waves[0].id != waves[1].id) && 0 <= j < |waves|
    ensures
      var surfaces := RenderWaves(waves, GatesFor(oracle, log, waves, clock), abortId).0;
      && |surfaces| == |waves| && surfaces[j].state != WavePending && surfaces[j].state != WaveBlocked
      && (surfaces[j].state == WaveAborted <==> abortId == Some(waves[j].id))
  {
    GatesOf(oracle, log, waves, clock);
    var gates := GatesFor(oracle, log, waves, clock);
    StickyBlocking(waves, gates, abortId, j);
    BlockedFlag(waves, gates, abortId);
  }

  /** What a response says happened, in terms of the backend after the rollout. */
  ghost predicate Explained(oracle: Oracle, core: Core, log: seq<Call>, r: CanaryRequest, clock: nat -> nat,
                            response: CanaryResponse)
  {
    && r.canaryNodes <= |r.nodes|
    && var wave := WavesFor(r)[0];
       var condemned := CanaryCondemned(oracle, log, wave, clock);
       && response.decision.Some? && (response.decision.value.shouldAbort <==> condemned)
       && (response.autoRollback.Some? <==> condemned && r.rollbackMode == OnFailedOrTimedOut)
       && (response.autoRollback.Some? ==>
             && response.rollout.sharedLastKnownGood.Some? && response.rollout.sharedLastKnownGood.value in core.records
             && response.autoRollback.value.target
                  == Some(core.records[response.rollout.sharedLastKnownGood.value].version))
       && (response.status.state == RolledBack <==> condemned && r.rollbackMode == OnFailedOrTimedOut)
       && (response.status.aborted <==> condemned)
       && |response.status.waves| > 0 && (response.status.waves[0].state == WaveAborted <==> condemned)
  }

  lemma SharedAfterRollout(oracle: Oracle, log: seq<Call>, job: Job, nodes: seq<string>, digest: string,
                           maxDivergence: nat, v: string)
    ensures ResponseTo(oracle, log, job, nodes, digest, maxDivergence).sharedLastKnownGood == Some(v) <==>
      RollbackCandidate(oracle, Progressed(oracle, log, job, nodes).log, nodes) == Ok(v)
  {
    var p := Progressed(oracle, log, job, nodes);
    SharedVersionIsCandidate(oracle, p.log, nodes, p.outcomes, job.version, digest, job.at, maxDivergence, v);
  }

  /** The canary is condemned and the policy covers timeouts: the fleet is to be rolled back. */
  ghost predicate Undoes(oracle: Oracle, log: seq<Call>, r: CanaryRequest, clock: nat -> nat) {
    r.canaryNodes <= |r.nodes| && CanaryCondemned(oracle, log, WavesFor(r)[0], clock)
      && r.rollbackMode == OnFailedOrTimedOut
  }

  /**
   How a canary rollout ends once its fleet rollout was accepted. If it is to be rolled back and the nodes
   share no published last-known-good version it answers that error, with the fleet, the ledger and the
   metrics as the rollout left them; otherwise it answers what happened.
   */
  ghost predicate Concluded(oracle: Oracle, core: Core, log: seq<Call>, ledger: Ledger, m: CanaryMetrics,
                            r: CanaryRequest, clock: nat -> nat, outcome: CanaryOutcome)
  {
    var candidate := RollbackCandidate(oracle, log, r.nodes);
    if Undoes(oracle, log, r, clock) && !(candidate.Ok? && candidate.value in core.records) then
      outcome == (log, ledger, m, Err(FleetFailed(if candidate.Err? then NoCandidate(candidate.error)
                                                  else UnknownFleetVersion(candidate.value))))
    else
      outcome.3.Ok? && Explained(oracle, core, log, r, clock, outcome.3.value)
  }

  /** The rollout part went through: the plan's waves, the accepted nodes, the reported shared version. */
  ghost predicate Accepted(oracle: Oracle, log: seq<Call>, r: CanaryRequest, ready: Prepared, rollout: FleetResponse) {
    && 0 < r.canaryNodes <= |r.nodes| && ready.plan.waves == WavesFor(r)
    && FleetFault(r.nodes, Sequential, r.maxDivergence) == None
    && forall v :: rollout.sharedLastKnownGood == Some(v) <==> RollbackCandidate(oracle, log, r.nodes) == Ok(v)
  }

  lemma UndoneMeaning(oracle: Oracle, core: Core, log: seq<Call>, ledger: Ledger, r: CanaryRequest, clock: nat -> nat)
    requires 0 < r.canaryNodes <= |r.nodes| && FleetFault(r.nodes, Sequential, r.maxDivergence) == None
    ensures
      var waves := WavesFor(r);
      var decision := FirstDecision(waves, GatesFor(oracle, log, waves, clock), r.rollbackMode);
      var (log', ledger', undone) := Undone(oracle, core, log, ledger, r, decision, clock(0));
      var candidate := RollbackCandidate(oracle, log, r.nodes);
      && decision.Some? && decision.value.waveId == waves[0].id
      && (decision.value.shouldAbort <==> CanaryCondemned(oracle, log, waves[0], clock))
      && (!Undoes(oracle, log, r, clock) ==>
          (log', ledger', undone) == (log, ledger, Ok(AutoRollback(false, false, None, None))))
      && (Undoes(oracle, log, r, clock) && candidate.Ok? && candidate.value in core.records ==>
            undone.Ok? && undone.value.attempted && undone.value.target == Some(core.records[candidate.value].version))
      && (Undoes(oracle, log, r, clock) && !(candidate.Ok? && candidate.value in core.records) ==>
            (log', ledger', undone)
            == (log, ledger, Err(if candidate.Err? then NoCandidate(candidate.error)
                                 else UnknownFleetVersion(candidate.value))))
  {
    WavesJoinToNodes(r);
    var waves := WavesFor(r);
    CanaryDecides(oracle, log, waves, clock, r.rollbackMode);
    var decision := FirstDecision(waves, GatesFor(oracle, log, waves, clock), r.rollbackMode);
    AutoRollbackMeaning(oracle, core, log, ledger, r.nodes, decision.value, r.actor, r.reason, r.maxDivergence,
                        clock(0));
  }

  /** The parts of a response that say what happened. */
  ghost predicate Tells(response: CanaryResponse, rollout: FleetResponse, waves: seq<Wave>, gates: Gates,
                        decision: Option<Decision>, kept: Option<AutoRollback>)
  {
    var aborted := decision.Some? && decision.value.shouldAbort;
    && response.rollout == rollout && response.decision == decision && response.autoRollback == kept
    && response.status.aborted == aborted && response.status.waves == RenderWaves(waves, gates, AbortId(decision)).0
    && response.status.state
         == OverallState(aborted, kept.Some? && kept.value.attempted, rollout.convergence.state)
  }

  lemma AnsweredTells(r: CanaryRequest, ready: Prepared, rollout: FleetResponse, gates: Gates,
                      decision: Option<Decision>, kept: Option<AutoRollback>)
    ensures Tells(Answered(r, ready, rollout, gates, decision, kept), rollout, ready.plan.waves, gates, decision, kept)
  {
  }

  lemma StatusTells(response: CanaryResponse, rollout: FleetResponse, waves: seq<Wave>, gates: Gates,
                    decision: Option<Decision>, kept: Option<AutoRollback>)
    requires Tells(response, rollout, waves, gates, decision, kept) && decision.Some? && waves != []
    requires decision.value.waveId == waves[0].id && (kept.Some? ==> kept.value.attempted)
    requires
      var surfaces := RenderWaves(waves, gates, AbortId(decision)).0;
      surfaces != [] && (surfaces[0].state == WaveAborted <==> AbortId(decision) == Some(waves[0].id))
    ensures response.status.state == RolledBack <==> kept.Some?
    ensures response.status.aborted <==> decision.value.shouldAbort
    ensures |response.status.waves| > 0
    ensures response.status.waves[0].state == WaveAborted <==> decision.value.shouldAbort
  {
  }

  lemma AnswerExplains(oracle: Oracle, core: Core, log: seq<Call>, r: CanaryRequest, ready: Prepared,
                       rollout: FleetResponse, clock: nat -> nat, kept: Option<AutoRollback>, response: CanaryResponse)
    requires Accepted(oracle, log, r, ready, rollout)
    requires
      var gates := GatesFor(oracle, log, WavesFor(r), clock);
      Tells(response, rollout, WavesFor(r), gates, FirstDecision(WavesFor(r), gates, r.rollbackMode), kept)
    requires kept.Some? <==> Undoes(oracle, log, r, clock)
    requires kept.Some? ==>
      var candidate := RollbackCandidate(oracle, log, r.nodes);
      && kept.value.attempted && candidate.Ok? && candidate.value in core.records
      && kept.value.target == Some(core.records[candidate.value].version)
    ensures Explained(oracle, core, log, r, clock, response)
  {
    WavesJoinToNodes(r);
    var waves := WavesFor(r);
    CanaryDecides(oracle, log, waves, clock, r.rollbackMode);
    var decision := FirstDecision(waves, GatesFor(oracle, log, waves, clock), r.rollbackMode);
    NothingPendingOrBlocked(oracle, log, waves, clock, AbortId(decision), 0);
    StatusTells(response, rollout, waves, GatesFor(oracle, log, waves, clock), decision, kept);
  }

  lemma JudgedConcludes(oracle: Oracle, core: Core, log: seq<Call>, ledger: Ledger, m: CanaryMetrics, r: CanaryRequest,
                        ready: Prepared, rollout: FleetResponse, clock: nat -> nat)
    requires Accepted(oracle, log, r, ready, rollout)
    ensures Concluded(oracle, core, log, ledger, m, r, clock,
                      Judged(oracle, core, log, ledger, m, r, ready, rollout, clock))
  {
    UndoneMeaning(oracle, core, log, ledger, r, clock);
    var gates := GatesFor(oracle, log, WavesFor(r), clock);
    var decision := FirstDecision(WavesFor(r), gates, r.rollbackMode);
    var undone := Undone(oracle, core, log, ledger, r, decision, clock(0)).2;
    if undone.Ok? {
      var kept := if undone.value.attempted then Some(undone.value) else None;
      AnsweredTells(r, ready, rollout, gates, decision, kept);
      AnswerExplains(oracle, core, log, r, ready, rollout, clock, kept,
                     Answered(r, ready, rollout, gates, decision, kept));
    }
  }

  lemma RolloutAccepted(fp: Fingerprinter, oracle: Oracle, core: Core, log: seq<Call>, ledger: Ledger, r: CanaryRequest,
                        at: nat)
    requires Prepare(fp, core, r).Ok? && FleetRolledOut(oracle, core, log, ledger, RolloutFor(r), at).2.Ok?
    ensures
      var (after, _, result) := FleetRolledOut(oracle, core, log, ledger, RolloutFor(r), at);
      Accepted(oracle, after, r, Prepare(fp, core, r).value, result.value)
  {
    PreparedPlan(fp, core, r);
    var published := core.records[Trim(r.candidate)];
    var job := Job(DoRollout, Canary(r.canaryNodes), published.version, r.actor, r.reason, at);
    var (after, _, result) := FleetRolledOut(oracle, core, log, ledger, RolloutFor(r), at);
    forall v
      ensures result.value.sharedLastKnownGood == Some(v) <==> RollbackCandidate(oracle, after, r.nodes) == Ok(v)
    {
      SharedAfterRollout(oracle, log, job, r.nodes, published.digest, r.maxDivergence, v);
    }
  }

  /**
   End to end, for every request, backend, clock and policy. A request that is refused before or by the
   fleet rollout leaves no trace. Otherwise the canary rollout is aborted exactly when its canary gate is
   required, its deadline has passed and a canary node is unhealthy, and is to be rolled back exactly when
   the policy also covers timeouts. It then answers an error exactly when the nodes share no published
   last-known-good version, leaving the fleet as the rollout did; otherwise it answers, rolled back to the
   version the rollout itself reported as shared, and the status says so.
   */
  lemma CanaryEndToEnd(fp: Fingerprinter, oracle: Oracle, core: Core, log: seq<Call>, ledger: Ledger, m: CanaryMetrics,
                       r: CanaryRequest, clock: nat -> nat)
    ensures
      var outcome := CanaryApplied(fp, oracle, core, log, ledger, m, r, clock);
      var ready := Prepare(fp, core, r);
      var (after, ledger', rollout) := FleetRolledOut(oracle, core, log, ledger, RolloutFor(r), clock(0));
      if ready.Err? then outcome.0 == log && outcome.1 == ledger && outcome.3 == Err(ready.error)
      else if rollout.Err? then outcome == (log, ledger, m, Err(FleetFailed(rollout.error)))
      else Concluded(oracle, core, after, ledger', m, r, clock, outcome)
  {
    var ready := Prepare(fp, core, r);
    if ready.Ok? {
      PreparedPlan(fp, core, r);
      RefusedLeavesNoTrace(oracle, core, log, ledger, RolloutFor(r), clock(0));
      var (after, ledger', rollout) := FleetRolledOut(oracle, core, log, ledger, RolloutFor(r), clock(0));
      if rollout.Ok? {
        RolloutAccepted(fp, oracle, core, log, ledger, r, clock(0));
        JudgedConcludes(oracle, core, after, ledger', m, r, ready.value, rollout.value, clock);
      }
    }
  }

  /** The rollout phase of a canary rollout isolates the canary wave. */
  lemma CanaryWaveIsolated(oracle: Oracle, core: Core, log: seq<Call>, ledger: Ledger, r: CanaryRequest, at: nat)
    requires r.canaryNodes <= |r.nodes| && FleetRolledOut(oracle, core, log, ledger, RolloutFor(r), at).2.Ok?
    ensures
      var (after, _, result) := FleetRolledOut(oracle, core, log, ledger, RolloutFor(r), at);
      var outcomes, canary, rest := result.value.outcomes, r.nodes[..r.canaryNodes], r.nodes[r.canaryNodes..];
      && |outcomes| == |r.nodes| && (forall i :: 0 <= i < |r.nodes| ==> outcomes[i].node == r.nodes[i]) && log <= after
      && (forall call :: call in after[|log|..] ==> call.action == DoRollout && call.node in r.nodes)
      && (CanaryFailed(r, outcomes) ==>
          forall call :: call in after[|log|..] ==> call.node in canary && call.node !in rest)
      && (!CanaryFailed(r, outcomes) ==> |after| == |log| + |r.nodes|)
  {
    DistinctNodes(r.nodes);
    var published := core.records[Trim(r.candidate)];
    var job := Job(DoRollout, Canary(r.canaryNodes), published.version, r.actor, r.reason, at);
    IsolationFromOutcomes(oracle, log, job, r.nodes);
    CallsOfJob(oracle, log, job, r.nodes);
  }

  /** The outcome of some canary node is a backend error. */
  predicate CanaryFailed(r: CanaryRequest, outcomes: seq<NodeOutcome>) {
    exists i :: 0 <= i < r.canaryNodes && i < |outcomes| && BackendError(outcomes[i])
  }

  lemma UndoneCalls(oracle: Oracle, core: Core, log: seq<Call>, ledger: Ledger, m: CanaryMetrics, r: CanaryRequest,
                    ready: Prepared, rollout: FleetResponse, clock: nat -> nat)
    requires Accepted(oracle, log, r, ready, rollout)
    ensures
      var (log', _, _, result) := Judged(oracle, core, log, ledger, m, r, ready, rollout, clock);
      && log <= log'
      && (log' != log ==> Undoes(oracle, log, r, clock) && result.Ok?)
      && forall call :: call in log'[|log|..] ==> call.action == DoRollback && call.node in r.nodes
  {
    UndoneMeaning(oracle, core, log, ledger, r, clock);
    var waves := WavesFor(r);
    var decision := FirstDecision(waves, GatesFor(oracle, log, waves, clock), r.rollbackMode);
    AutoRollbackCalls(oracle, core, log, ledger, r.nodes, decision.value, r.actor, r.reason, r.maxDivergence, clock(0));
  }

  lemma AppliedIsJudged(fp: Fingerprinter, oracle: Oracle, core: Core, log: seq<Call>, ledger: Ledger, m: CanaryMetrics,
                        r: CanaryRequest, clock: nat -> nat)
    requires Prepare(fp, core, r).Ok? && FleetRolledOut(oracle, core, log, ledger, RolloutFor(r), clock(0)).2.Ok?
    ensures
      var (after, ledger', rollout) := FleetRolledOut(oracle, core, log, ledger, RolloutFor(r), clock(0));
      CanaryApplied(fp, oracle, core, log, ledger, m, r, clock)
      == Judged(oracle, core, after, ledger', m, r, Prepare(fp, core, r).value, rollout.value, clock)
  {
    PreparedPlan(fp, core, r);
  }

  lemma CallsJoin(log: seq<Call>, after: seq<Call>, last: seq<Call>)
    requires log <= after <= last
    ensures forall call :: call in last[|log|..] <==> call in after[|log|..] || call in last[|after|..]
  {
    assert last[|log|..] == after[|log|..] + last[|after|..];
  }

  /** The rollout phase's calls, then only rollbacks, and those only when the fleet is to be rolled back. */
  ghost predicate Phased(oracle: Oracle, log: seq<Call>, after: seq<Call>, last: seq<Call>, r: CanaryRequest,
                         clock: nat -> nat, answered: bool)
  {
    && log <= after <= last
    && (forall call :: call in after[|log|..] ==> call.action == DoRollout)
    && (forall call :: call in last[|after|..] ==> call.action == DoRollback)
    && (last != after ==> Undoes(oracle, after, r, clock) && answered)
  }

  /**
   Isolation over the whole run, automatic rollback included. When a canary node's outcome is a backend
   error, no node of the fleet wave is asked to roll out; the only calls that reach one are rollbacks,
   and those are made only when the canary is condemned and the policy covers timeouts.
   */
  lemma FleetWaveCalls(fp: Fingerprinter, oracle: Oracle, core: Core, log: seq<Call>, ledger: Ledger, m: CanaryMetrics,
                       r: CanaryRequest, clock: nat -> nat)
    requires Prepare(fp, core, r).Ok? && FleetRolledOut(oracle, core, log, ledger, RolloutFor(r), clock(0)).2.Ok?
    ensures
      var (after, _, rollout) := FleetRolledOut(oracle, core, log, ledger, RolloutFor(r), clock(0));
      var (last, _, _, result) := CanaryApplied(fp, oracle, core, log, ledger, m, r, clock);
      && Phased(oracle, log, after, last, r, clock, result.Ok?) && r.canaryNodes <= |r.nodes|
      && (CanaryFailed(r, rollout.value.outcomes) ==>
            forall call :: call in last[|log|..] && call.node in r.nodes[r.canaryNodes..] ==> call.action == DoRollback)
  {
    AppliedIsJudged(fp, oracle, core, log, ledger, m, r, clock);
    RolloutAccepted(fp, oracle, core, log, ledger, r, clock(0));
    CanaryWaveIsolated(oracle, core, log, ledger, r, clock(0));
    var (after, ledger', rollout) := FleetRolledOut(oracle, core, log, ledger, RolloutFor(r), clock(0));
    UndoneCalls(oracle, core, after, ledger', m, r, Prepare(fp, core, r).value, rollout.value, clock);
    CallsJoin(log, after, Judged(oracle, core, after, ledger', m, r, Prepare(fp, core, r).value, rollout.value,
                                 clock).0);
  }
}
