/** The automatic rollback of a canary rollout, at nodes that call good what they last took. */
module CanaryRollback {
  import opened Basics
  import opened Registry
  import opened Dataplane
  import opened Rollout
  import opened SnapshotDiff
  import opened Samples
  import opened FleetExecution
  import opened FleetConvergence
  import opened FleetStaged
  import opened FleetGate
  import opened FleetStatus
  import opened FleetRollout
  import opened FleetRollback
  import opened FleetNodes
  import opened ListenerCanary
  import opened CanarySafety
  import opened CanaryNames
  import Safety = RolloutSafety

  /** The rollout of `v` was accepted by the coordinator at honest nodes that all held `u`. */
  ghost predicate Replaces(fp: Fingerprinter, oracle: Oracle, core: Core, log: seq<Call>, ledger: Ledger,
                           r: CanaryRequest, at: nat, u: string, v: string)
  {
    && Prepare(fp, core, r).Ok? && FleetRolledOut(oracle, core, log, ledger, RolloutFor(r), at).2.Ok?
    && Trim(r.candidate) == v && u != v && Safety.Proper(core, u) && Safety.Proper(core, v)
    && Honest(oracle) && AllName(oracle, log, r.nodes, u)
  }

  lemma CandidateAfterCanary(fp: Fingerprinter, oracle: Oracle, core: Core, log: seq<Call>, ledger: Ledger,
                             r: CanaryRequest, at: nat, u: string, v: string)
    requires Replaces(fp, oracle, core, log, ledger, r, at, u, v)
    ensures
      var (after, _, rollout) := FleetRolledOut(oracle, core, log, ledger, RolloutFor(r), at);
      var candidate := RollbackCandidate(oracle, after, r.nodes);
      && (candidate == Ok(v) <==> AllTook(rollout.value.outcomes))
      && (candidate == Ok(u) <==> NoneTook(rollout.value.outcomes))
      && (candidate.Ok? ==> candidate.value == v || candidate.value == u)
  {
    DistinctNodes(r.nodes);
    var job := Job(DoRollout, Canary(r.canaryNodes), v, r.actor, r.reason, at);
    CandidateAfterAction(oracle, log, job, r.nodes, u);
  }

  /**
   A canary rollout that is to be rolled back, at honest nodes: it answers exactly when either every node
   or no node took the candidate. If any took it and it answers, the status says rolled back and the
   target is the candidate itself.
   */
  lemma CanaryRollsBackToItself(fp: Fingerprinter, oracle: Oracle, core: Core, log: seq<Call>, ledger: Ledger,
                                m: CanaryMetrics, r: CanaryRequest, clock: nat -> nat, u: string, v: string)
    requires Replaces(fp, oracle, core, log, ledger, r, clock(0), u, v)
    requires Undoes(oracle, FleetRolledOut(oracle, core, log, ledger, RolloutFor(r), clock(0)).0, r, clock)
    ensures
      var outcomes := FleetRolledOut(oracle, core, log, ledger, RolloutFor(r), clock(0)).2.value.outcomes;
      var result := CanaryApplied(fp, oracle, core, log, ledger, m, r, clock).3;
      && (result.Ok? <==> AllTook(outcomes) || NoneTook(outcomes))
      && (result.Ok? ==>
            && result.value.status.state == RolledBack && result.value.autoRollback.Some?
            && result.value.autoRollback.value.target == Some(if NoneTook(outcomes) then u else v))
  {
    CandidateAfterCanary(fp, oracle, core, log, ledger, r, clock(0), u, v);
    CanaryEndToEnd(fp, oracle, core, log, ledger, m, r, clock);
    RolloutAccepted(fp, oracle, core, log, ledger, r, clock(0));
    ResponseRollout(fp, oracle, core, log, ledger, m, r, clock);
  }

  /** The answer says rolled back, and to `v`. */
  predicate Resends(result: Result<CanaryResponse, CanaryError>, v: string) {
    && result.Ok? && result.value.status.state == RolledBack && result.value.autoRollback.Some?
    && result.value.autoRollback.value.target == Some(v)
  }

  /** In particular, when every node took the candidate, the rollback sends it to every node again. */
  lemma AllTookResends(fp: Fingerprinter, oracle: Oracle, core: Core, log: seq<Call>, ledger: Ledger, m: CanaryMetrics,
                       r: CanaryRequest, clock: nat -> nat, u: string, v: string)
    requires Replaces(fp, oracle, core, log, ledger, r, clock(0), u, v)
    requires Undoes(oracle, FleetRolledOut(oracle, core, log, ledger, RolloutFor(r), clock(0)).0, r, clock)
    requires AllTook(FleetRolledOut(oracle, core, log, ledger, RolloutFor(r), clock(0)).2.value.outcomes)
    ensures Resends(CanaryApplied(fp, oracle, core, log, ledger, m, r, clock).3, v)
  {
    SomeOutcome(fp, oracle, core, log, ledger, r, clock(0));
    NotBoth(FleetRolledOut(oracle, core, log, ledger, RolloutFor(r), clock(0)).2.value.outcomes);
    CanaryRollsBackToItself(fp, oracle, core, log, ledger, m, r, clock, u, v);
  }

  lemma NotBoth(outcomes: seq<NodeOutcome>)
    requires |outcomes| > 0 && AllTook(outcomes)
    ensures !NoneTook(outcomes)
  {
    assert Took(outcomes[0]);
  }

  lemma SomeOutcome(fp: Fingerprinter, oracle: Oracle, core: Core, log: seq<Call>, ledger: Ledger, r: CanaryRequest,
                    at: nat)
    requires Prepare(fp, core, r).Ok? && FleetRolledOut(oracle, core, log, ledger, RolloutFor(r), at).2.Ok?
    ensures |FleetRolledOut(oracle, core, log, ledger, RolloutFor(r), at).2.value.outcomes| > 0
  {
    PreparedPlan(fp, core, r);
    var published := core.records[Trim(r.candidate)];
    ExecutionShape(oracle, log, Job(DoRollout, Canary(r.canaryNodes), published.version, r.actor, r.reason, at),
                   r.nodes);
  }

  /** A response carries the rollout it followed. */
  lemma ResponseRollout(fp: Fingerprinter, oracle: Oracle, core: Core, log: seq<Call>, ledger: Ledger, m: CanaryMetrics,
                        r: CanaryRequest, clock: nat -> nat)
    requires Prepare(fp, core, r).Ok? && FleetRolledOut(oracle, core, log, ledger, RolloutFor(r), clock(0)).2.Ok?
    ensures
      var rollout := FleetRolledOut(oracle, core, log, ledger, RolloutFor(r), clock(0)).2;
      var result := CanaryApplied(fp, oracle, core, log, ledger, m, r, clock).3;
      result.Ok? ==> result.value.rollout == rollout.value
  {
    AppliedIsJudged(fp, oracle, core, log, ledger, m, r, clock);
  }

  // ----- a fleet of the repository's own nodes -----

  function Silent(log: seq<Call>, node: string, windowMs: nat): Result<Option<Signal>, string> {
    Ok(None)
  }

  function AtStart(log: seq<Call>, node: string): nat {
    0
  }

  function Willing(call: Call): Hook {
    AnyHook
  }

  /** A node that has rolled out version `"1"`. */
  function RunningOne(core: Core): Node {
    var (co, dp, _) := RolledOut(AnySignature, AnyHook, core, FRESH_COORDINATOR, FRESH_DATAPLANE, "1", None, None, 0);
    Node(co, dp)
  }

  /** Nodes of the repository's own kind, all running version `"1"`, that report no health. */
  function OwnFleet(core: Core): Fleet {
    Fleet(AnySignature, Willing, core, _ => RunningOne(core), AtStart, Silent)
  }

  /** A canary of version `"2"` at one node, with a gate of one millisecond. */
  function OneNodeCanary(): CanaryRequest {
    CanaryRequest("e", "2", Some("1"), None, None, ["n"], 1, 1, 1, 1, GatePolicy(Required, 95, 5, 1, 1), true,
                  OnFailedOrTimedOut)
  }

  /** Versions `"1"` and `"2"` are published and valid. */
  predicate Publishes(core: Core) {
    && Safety.Proper(core, "1") && Safety.Proper(core, "2") && VersionOk("1") && VersionOk("2") && Trim("2") == "2"
    && IsDigest(core.records["1"].digest) && IsDigest(core.records["2"].digest)
  }

  lemma FirstIsGood(core: Core)
    requires Publishes(core)
    ensures
      var node := RunningOne(core);
      GoodIsActive(node) && node.dp.lastKnownGood.Some? && node.dp.lastKnownGood.value.version == "1"
  {
    var record := core.records["1"];
    ApplyMeaning(AnySignature, AnyHook, FRESH_DATAPLANE,
                 ApplyRequest(record.version, record.snapshot, record.attestation, record.digest, None), 0);
  }

  lemma SecondIsTaken(core: Core, at: nat)
    requires Publishes(core)
    ensures Takes(FleetNodes.Answered(OwnFleet(core), [], Call(DoRollout, "n", "2", None, None, at)))
  {
    FirstIsGood(core);
    var record, dp := core.records["2"], RunningOne(core).dp;
    ApplyMeaning(AnySignature, AnyHook, dp,
                 ApplyRequest(record.version, record.snapshot, record.attestation, record.digest, None), at);
  }

  lemma OneNode()
    ensures Trim("n") == "n" && Trimmed(["n"]) == ["n"] && Expected(["n"]) == {"n"}
    ensures FleetFault(["n"], Canary(1), 1) == None
  {
    OneCharacter('n');
    assert Utf8Len("n") == 1 + Utf8Len("n"[1..]);
    NodesAcceptedExactly(["n"]);
  }

  lemma OneWave(wave: Wave)
    requires WaveFault(wave, {}) == None && wave.nodes == ["n"]
    ensures PlanFor(RolloutFor(OneNodeCanary()), [wave]).Ok?
  {
    OneNode();
    var waves := [wave];
    PlanIsPartition(RolloutFor(OneNodeCanary()), waves);
    assert waves[..0] == [];
    assert AllNodes(waves) == ["n"];
    assert GoodWave(waves, 0);
  }

  lemma OneNodePlan()
    ensures PlanFor(RolloutFor(OneNodeCanary()), WavesFor(OneNodeCanary())).Ok?
  {
    var r := OneNodeCanary();
    OneCharacter('e');
    assert Utf8Len("e") == 1 + Utf8Len("e"[1..]);
    WaveIdLengths("e");
    assert ["n"][..1] == ["n"] && ["n"][1..] == [];
    OneWave(WavesFor(r)[0]);
  }

  lemma OneNodePrepared(fp: Fingerprinter, core: Core)
    requires Publishes(core)
    ensures Prepare(fp, core, OneNodeCanary()).Ok?
  {
    OneCharacter('e');
    assert Utf8Len("e") == 1 + Utf8Len("e"[1..]);
    OneNodePlan();
  }

  lemma OneNodeRollout(core: Core, at: nat)
    requires Publishes(core)
    ensures
      var rollout := FleetRolledOut(OracleOf(OwnFleet(core)), core, [], FRESH_LEDGER, RolloutFor(OneNodeCanary()),
                                    at).2;
      rollout.Ok? && AllTook(rollout.value.outcomes)
  {
    OneNode();
    SecondIsTaken(core, at);
    var oracle := OracleOf(OwnFleet(core));
    RefusedLeavesNoTrace(oracle, core, [], FRESH_LEDGER, RolloutFor(OneNodeCanary()), at);
    var job := Job(DoRollout, Canary(1), "2", None, None, at);
    assert ["n"][..0] == [];
    TookExactly("n", oracle.act([], CallFor(job, "n")));
    assert Progressed(oracle, [], job, ["n"]) == Advance(oracle, job, Progressed(oracle, [], job, []), "n");
  }

  lemma OneNodeHonest(core: Core)
    requires Publishes(core) && Safety.AllProper(core)
    ensures Honest(OracleOf(OwnFleet(core))) && AllName(OracleOf(OwnFleet(core)), [], ["n"], "1")
  {
    FirstIsGood(core);
    OwnNodesAreHonest(OwnFleet(core));
  }

  function Ticking(i: nat): nat {
    i
  }

  lemma OneNodeCondemned(core: Core, log: seq<Call>)
    ensures Undoes(OracleOf(OwnFleet(core)), log, OneNodeCanary(), Ticking)
  {
    var wave := WavesFor(OneNodeCanary())[0];
    assert wave.nodes == ["n"] && "n" in wave.nodes;
    assert "n" !in Collected(OracleOf(OwnFleet(core)), log, wave);
    assert Unhealthy(Collected(OracleOf(OwnFleet(core)), log, wave), wave.policy, "n");
  }

  lemma OneNodeRollsBack(fp: Fingerprinter, core: Core)
    requires Publishes(core) && Safety.AllProper(core)
    ensures Resends(CanaryApplied(fp, OracleOf(OwnFleet(core)), core, [], FRESH_LEDGER, CanaryMetrics(0, 0, 0),
                                  OneNodeCanary(), Ticking).3, "2")
  {
    OneNodePrepared(fp, core);
    OneNodeRollout(core, 0);
    OneNodeHonest(core);
    var oracle := OracleOf(OwnFleet(core));
    OneNodeCondemned(core, FleetRolledOut(oracle, core, [], FRESH_LEDGER, RolloutFor(OneNodeCanary()), 0).0);
    AllTookResends(fp, oracle, core, [], FRESH_LEDGER, CanaryMetrics(0, 0, 0), OneNodeCanary(), Ticking, "1", "2");
  }

  /**
   A node of the repository's own kind runs version `"1"`; a canary of version `"2"` reaches it, the gate
   times out without a health signal, and the automatic rollback sends `"2"` again and reports the fleet
   as rolled back.
   */
  lemma RollbackResendsExample(fp: Fingerprinter)
    ensures
      var oracle := OracleOf(OwnFleet(Released()));
      && AllName(oracle, [], ["n"], "1")
      && Resends(CanaryApplied(fp, oracle, Released(), [], FRESH_LEDGER, CanaryMetrics(0, 0, 0), OneNodeCanary(),
                               Ticking).3, "2")
  {
    ReleasedFacts();
    SampleFacts();
    assert Safety.Proper(Released(), "1") && Safety.Proper(Released(), "2");
    OneNodeHonest(Released());
    OneNodeRollsBack(fp, Released());
  }
}
