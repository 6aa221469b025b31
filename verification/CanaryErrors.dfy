/** A canary rollout that answers an error after its fleet rollout was carried out. */
module CanaryErrors {
  import opened Basics
  import opened Registry
  import opened Rollout
  import opened SnapshotDiff
  import opened Samples
  import opened FleetExecution
  import opened FleetConvergence
  import opened FleetGate
  import opened FleetRollout
  import opened ListenerCanary
  import opened CanarySafety
  import opened CanaryRollback
  import Safety = RolloutSafety

  type Acting = (seq<Call>, Call) -> Result<RolloutResponse, string>

  /** A rollout that is carried out contacts its first node and enters the history. */
  lemma CarriedOutShows(oracle: Oracle, core: Core, log: seq<Call>, ledger: Ledger, r: CanaryRequest, at: nat)
    requires r.nodes != [] && FleetRolledOut(oracle, core, log, ledger, RolloutFor(r), at).2.Ok?
    ensures
      var (after, ledger', _) := FleetRolledOut(oracle, core, log, ledger, RolloutFor(r), at);
      && log < after && after[|log|].action == DoRollout && after[|log|].node == r.nodes[0]
      && ledger.history < ledger'.history && |ledger'.history| == |ledger.history| + 1
  {
    var version := core.records[RolloutFor(r).version].version;
    var job := Job(DoRollout, Canary(r.canaryNodes), version, r.actor, r.reason, at);
    ExecutionShape(oracle, log, job, r.nodes);
    assert Progressed(oracle, log, job, r.nodes).log[|log|] == CallFor(job, r.nodes[0]);
  }

  /**
   Whenever a canary rollout answers an error although its fleet rollout was carried out, it leaves that
   rollout behind: nodes were contacted, the history has one more entry, and nothing was counted.
   */
  lemma ErrorLeavesChanges(fp: Fingerprinter, oracle: Oracle, core: Core, log: seq<Call>, ledger: Ledger,
                           m: CanaryMetrics, r: CanaryRequest, clock: nat -> nat)
    requires Prepare(fp, core, r).Ok? && FleetRolledOut(oracle, core, log, ledger, RolloutFor(r), clock(0)).2.Ok?
    requires CanaryApplied(fp, oracle, core, log, ledger, m, r, clock).3.Err?
    ensures
      var (last, ledger', m', result) := CanaryApplied(fp, oracle, core, log, ledger, m, r, clock);
      && result.error.FleetFailed? && m' == m
      && log < last && last[|log|].action == DoRollout && last[|log|].node in r.nodes
      && ledger.history < ledger'.history && |ledger'.history| == |ledger.history| + 1
  {
    PreparedPlan(fp, core, r);
    CanaryEndToEnd(fp, oracle, core, log, ledger, m, r, clock);
    CarriedOutShows(oracle, core, log, ledger, r, clock(0));
  }

  // ----- an example -----

  function Unreadable(log: seq<Call>, node: string): Result<Status, string> {
    Err("down")
  }

  /** Nodes that act in any way but answer neither status nor health. */
  function Mute(act: Acting): Oracle {
    Oracle(act, Unreadable, Silent)
  }

  /** A node that applies whatever it is sent. */
  function Obedient(log: seq<Call>, call: Call): Result<RolloutResponse, string> {
    Ok(RolloutResponse(DoRollout, NowApplied, call.version, "", call.version))
  }

  lemma MuteCondemned(act: Acting, log: seq<Call>)
    ensures Undoes(Mute(act), log, OneNodeCanary(), Ticking)
  {
    var wave := WavesFor(OneNodeCanary())[0];
    assert wave.nodes == ["n"] && "n" in wave.nodes;
    assert "n" !in Collected(Mute(act), log, wave);
    assert Unhealthy(Collected(Mute(act), log, wave), wave.policy, "n");
  }

  lemma MuteShareNothing(act: Acting, log: seq<Call>)
    ensures RollbackCandidate(Mute(act), log, ["n"]).Err?
  {
    if RollbackCandidate(Mute(act), log, ["n"]).Ok? {
      ScanMeaning(Mute(act), log, ["n"], RollbackCandidate(Mute(act), log, ["n"]).value);
    }
  }

  lemma MuteCanary(fp: Fingerprinter, core: Core, act: Acting)
    requires Publishes(core)
    ensures
      var (last, ledger, _, result) :=
        CanaryApplied(fp, Mute(act), core, [], FRESH_LEDGER, CanaryMetrics(0, 0, 0), OneNodeCanary(), Ticking);
      && result.Err? && result.error.FleetFailed? && result.error.fleet.NoCandidate?
      && last == [Call(DoRollout, "n", "2", None, None, 0)] && |ledger.history| == 1
  {
    var r := OneNodeCanary();
    OneNodePrepared(fp, core);
    OneNode();
    RefusedLeavesNoTrace(Mute(act), core, [], FRESH_LEDGER, RolloutFor(r), 0);
    var log := FleetRolledOut(Mute(act), core, [], FRESH_LEDGER, RolloutFor(r), 0).0;
    MuteCondemned(act, log);
    MuteShareNothing(act, log);
    CanaryEndToEnd(fp, Mute(act), core, [], FRESH_LEDGER, CanaryMetrics(0, 0, 0), r, Ticking);
    CarriedOutShows(Mute(act), core, [], FRESH_LEDGER, r, 0);
    MuteLog(core, act);
  }

  lemma MuteLog(core: Core, act: Acting)
    requires Publishes(core)
    ensures
      FleetRolledOut(Mute(act), core, [], FRESH_LEDGER, RolloutFor(OneNodeCanary()), 0).0
      == [Call(DoRollout, "n", "2", None, None, 0)]
  {
    OneNode();
    var job := Job(DoRollout, Canary(1), "2", None, None, 0);
    assert ["n"][..0] == [];
    assert Progressed(Mute(act), [], job, ["n"]) == Advance(Mute(act), job, Progressed(Mute(act), [], job, []), "n");
  }

  /** One node applies version `"2"`, its status cannot be read, and the canary rollout answers an error. */
  lemma ErrorLeavesChangesExample(fp: Fingerprinter)
    ensures
      var (last, ledger, _, result) :=
        CanaryApplied(fp, Mute(Obedient), Released(), [], FRESH_LEDGER, CanaryMetrics(0, 0, 0), OneNodeCanary(),
                      Ticking);
      && result.Err? && result.error.FleetFailed?
      && last == [Call(DoRollout, "n", "2", None, None, 0)] && Takes(Mute(Obedient).act([], last[0]))
      && |ledger.history| == 1
  {
    ReleasedFacts();
    SampleFacts();
    assert Safety.Proper(Released(), "1") && Safety.Proper(Released(), "2");
    MuteCanary(fp, Released(), Obedient);
  }
}
