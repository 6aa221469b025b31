/** Where a rollback without a target takes a fleet whose nodes call good what they last accepted. */
module FleetRollback {
  import opened Basics
  import opened Registry
  import opened FleetExecution
  import opened FleetConvergence
  import opened FleetGate
  import opened FleetRollout

  /** One change at one node: the version it takes becomes its last known good, nothing else moves. */
  ghost predicate HonestAt(oracle: Oracle, log: seq<Call>, call: Call, node: string) {
    var before, after := oracle.status(log, node), oracle.status(log + [call], node);
    if call.node == node && Takes(oracle.act(log, call)) then Names(after, call.version)
    else forall v :: Names(after, v) <==> Names(before, v)
  }

  ghost predicate Honest(oracle: Oracle) {
    forall log, call, node :: HonestAt(oracle, log, call, node)
  }

  lemma CallsSnoc(job: Job, nodes: seq<string>, k: int)
    requires 0 < k <= |nodes|
    ensures CallsFor(job, nodes[..k]) == CallsFor(job, nodes[..k - 1]) + [CallFor(job, nodes[k - 1])]
  {
  }

  /** After the first `k` nodes were contacted, exactly those of them that took the version name it. */
  lemma {:induction false} AfterCalls(oracle: Oracle, log: seq<Call>, job: Job, nodes: seq<string>, k: nat, j: int,
                                      u: string)
    requires Honest(oracle) && NoDuplicates(nodes) && k <= |nodes| && 0 <= j < |nodes|
    requires Names(oracle.status(log, nodes[j]), u)
    ensures Names(oracle.status(log + CallsFor(job, nodes[..k]), nodes[j]),
                  if j < k && Takes(Answer(oracle, log, job, nodes, j)) then job.version else u)
    decreases k
  {
    if k == 0 {
      assert log + CallsFor(job, nodes[..0]) == log;
    } else {
      AfterCalls(oracle, log, job, nodes, k - 1, j, u);
      CallsSnoc(job, nodes, k);
      var before := log + CallsFor(job, nodes[..k - 1]);
      var call := CallFor(job, nodes[k - 1]);
      assert log + CallsFor(job, nodes[..k]) == before + [call];
      assert HonestAt(oracle, before, call, nodes[j]);
    }
  }

  /** After an action, exactly the nodes whose outcome says they took the version name it. */
  lemma AfterAction(oracle: Oracle, log: seq<Call>, job: Job, nodes: seq<string>, j: int, u: string)
    requires Honest(oracle) && NoDuplicates(nodes) && 0 <= j < |nodes| && Names(oracle.status(log, nodes[j]), u)
    ensures
      var p := Progressed(oracle, log, job, nodes);
      |p.outcomes| == |nodes| && Names(oracle.status(p.log, nodes[j]), if Took(p.outcomes[j]) then job.version else u)
  {
    ExecutionShape(oracle, log, job, nodes);
    var p := Progressed(oracle, log, job, nodes);
    var k := |p.log| - |log|;
    AfterCalls(oracle, log, job, nodes, k, j, u);
    if j < k {
      TookExactly(nodes[j], Answer(oracle, log, job, nodes, j));
    } else {
      assert p.outcomes[j] == Skipped(nodes[j]);
    }
  }

  /** When each node names `v` or `u`, all must name the same for there to be a candidate. */
  lemma CandidateSplit(oracle: Oracle, log: seq<Call>, nodes: seq<string>, v: string, u: string, took: seq<bool>)
    requires nodes != [] && u != v && |took| == |nodes|
    requires forall j :: 0 <= j < |nodes| ==> Names(oracle.status(log, nodes[j]), if took[j] then v else u)
    ensures
      var candidate := RollbackCandidate(oracle, log, nodes);
      && (candidate == Ok(v) <==> forall j :: 0 <= j < |nodes| ==> took[j])
      && (candidate == Ok(u) <==> forall j :: 0 <= j < |nodes| ==> !took[j])
      && (candidate.Ok? ==> candidate.value == v || candidate.value == u)
  {
    ScanMeaning(oracle, log, nodes, v);
    ScanMeaning(oracle, log, nodes, u);
    var candidate := RollbackCandidate(oracle, log, nodes);
    if candidate.Ok? {
      ScanMeaning(oracle, log, nodes, candidate.value);
      assert Names(oracle.status(log, nodes[0]), candidate.value);
    }
  }

  function Taken(outcomes: seq<NodeOutcome>): (r: seq<bool>)
    ensures |r| == |outcomes| && forall j :: 0 <= j < |r| ==> r[j] == Took(outcomes[j])
  {
    seq(|outcomes|, j requires 0 <= j < |outcomes| => Took(outcomes[j]))
  }

  predicate AllTook(outcomes: seq<NodeOutcome>) {
    forall j :: 0 <= j < |outcomes| ==> Took(outcomes[j])
  }

  predicate NoneTook(outcomes: seq<NodeOutcome>) {
    forall j :: 0 <= j < |outcomes| ==> !Took(outcomes[j])
  }

  /** Every node names `u` as last known good. */
  ghost predicate AllName(oracle: Oracle, log: seq<Call>, nodes: seq<string>, u: string) {
    forall j :: 0 <= j < |nodes| ==> Names(oracle.status(log, nodes[j]), u)
  }

  /**
   When every node held `u` as last known good and a fleet action sent `v`, a rollback without a target
   chooses `v` exactly when every outcome says the node took `v`, and `u` exactly when none does.
   */
  lemma CandidateAfterAction(oracle: Oracle, log: seq<Call>, job: Job, nodes: seq<string>, u: string)
    requires Honest(oracle) && NoDuplicates(nodes) && nodes != [] && u != job.version && AllName(oracle, log, nodes, u)
    ensures
      var p := Progressed(oracle, log, job, nodes);
      var candidate := RollbackCandidate(oracle, p.log, nodes);
      && (candidate == Ok(job.version) <==> AllTook(p.outcomes))
      && (candidate == Ok(u) <==> NoneTook(p.outcomes))
      && (candidate.Ok? ==> candidate.value == job.version || candidate.value == u)
  {
    var p := Progressed(oracle, log, job, nodes);
    ExecutionShape(oracle, log, job, nodes);
    forall j | 0 <= j < |nodes|
      ensures Names(oracle.status(p.log, nodes[j]), if Taken(p.outcomes)[j] then job.version else u)
    {
      AfterAction(oracle, log, job, nodes, j, u);
    }
    CandidateSplit(oracle, p.log, nodes, job.version, u, Taken(p.outcomes));
  }

  /**
   So the automatic rollback after a rollout of `v` returns such a fleet to `u` exactly when no node had
   taken `v`; once a node has taken it, the rollback either sends `v` again or is refused.
   */
  lemma AutoRollbackExactly(oracle: Oracle, core: Core, log: seq<Call>, ledger: Ledger, job: Job, nodes: seq<string>,
                            u: string, decision: Decision, actor: Option<string>, reason: Option<string>,
                            maxDivergence: nat, at: nat)
    requires Honest(oracle) && NoDuplicates(nodes) && nodes != [] && u != job.version && AllName(oracle, log, nodes, u)
    requires decision.shouldAutoRollback && u in core.records && core.records[u].version == u
    requires job.version in core.records && core.records[job.version].version == job.version
    requires FleetFault(nodes, Sequential, maxDivergence) == None
    ensures
      var p := Progressed(oracle, log, job, nodes);
      var result := AutoRolledBack(oracle, core, p.log, ledger, nodes, decision, actor, reason, maxDivergence, at).2;
      && (result.Ok? && result.value.target == Some(u) <==> NoneTook(p.outcomes))
      && (result.Ok? && result.value.target == Some(job.version) <==> AllTook(p.outcomes))
      && (result.Ok? <==> NoneTook(p.outcomes) || AllTook(p.outcomes))
  {
    CandidateAfterAction(oracle, log, job, nodes, u);
    var p := Progressed(oracle, log, job, nodes);
    AutoRollbackMeaning(oracle, core, p.log, ledger, nodes, decision, actor, reason, maxDivergence, at);
  }
}
