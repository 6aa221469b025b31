/** Promoting a published version: a diff preview decides whether the rollout needs an acknowledgement. */
module Promotion {
  import opened Basics
  import opened Compiler
  import opened SnapshotDiff
  import opened Registry
  import opened Dataplane
  import opened Rollout
  import opened Samples
  import Safety = RolloutSafety

  datatype Strategy = Immediate | StagedCanary

  datatype Preview = Preview(
    candidateVersion: string, baseVersion: string, baseDigest: string, candidateDigest: string, severity: Severity,
    strategy: Strategy, requiresAck: bool)

  datatype PromotionRequest = PromotionRequest(
    candidate: string, baseline: Option<string>, actor: Option<string>, reason: Option<string>, allowStaged: bool)

  datatype PromotionResponse = PromotionResponse(preview: Preview, rollout: RolloutResponse)

  datatype PromotionError =
    | MissingCandidateVersion
    | CandidateNotPublished(version: string)
    | BaselineNotFound(version: string)
    | NoBaselineVersion
    | StagedApplyRequired(severity: Severity, strategy: Strategy)
    | RolloutFailed(error: RolloutError)

  datatype PromotionMetrics = PromotionMetrics(previews: nat, applies: nat, blocked: nat)

  function StrategyFor(severity: Severity): Strategy {
    match severity case Low => Immediate case Medium => StagedCanary case High => StagedCanary
  }

  /** The version compared against: the named one, or the latest published. */
  function Baseline(core: Core, named: Option<string>): Result<string, PromotionError> {
    match named
    case Some(version) => if version in core.records then Ok(version) else Err(BaselineNotFound(version))
    case None =>
      if core.history != [] && core.history[|core.history| - 1] in core.records
      then Ok(core.history[|core.history| - 1]) else Err(NoBaselineVersion)
  }

  function Compared(version: string, base: Record, digest: string, severity: Severity): Preview {
    Preview(version, base.version, base.digest, digest, severity, StrategyFor(severity),
            StrategyFor(severity) != Immediate)
  }

  function PreviewOf(fp: Fingerprinter, core: Core, candidate: string, named: Option<string>)
    : Result<Preview, PromotionError>
  {
    var version := Trim(candidate);
    if version == [] then Err(MissingCandidateVersion)
    else if version !in core.records then Err(CandidateNotPublished(version))
    else match Baseline(core, named)
      case Err(error) => Err(error)
      case Ok(base) =>
        Ok(Compared(version, core.records[base], DigestOf(core.records[version].snapshot),
                    Impact(fp, core.records[base].snapshot.view, core.records[version].snapshot.view)))
  }

  type Promoting = (PromotionMetrics, Coordinator, Dataplane, Result<PromotionResponse, PromotionError>)

  /** The rollout is given the version as requested, not as previewed. */
  function Promoted(verify: Verifier, hook: Hook, fp: Fingerprinter, core: Core, m: PromotionMetrics, co: Coordinator,
                    dp: Dataplane, r: PromotionRequest, at: nat): Promoting
  {
    match PreviewOf(fp, core, r.candidate, r.baseline)
    case Err(error) => (m, co, dp, Err(error))
    case Ok(preview) =>
      var m1 := m.(previews := SatAdd(m.previews, 1));
      if preview.requiresAck && !r.allowStaged then
        (m1.(blocked := SatAdd(m.blocked, 1)), co, dp, Err(StagedApplyRequired(preview.severity, preview.strategy)))
      else
        var (co', dp', outcome) := RolledOut(verify, hook, core, co, dp, r.candidate, r.actor, r.reason, at);
        match outcome
        case Err(error) => (m1, co', dp', Err(RolloutFailed(error)))
        case Ok(response) => (m1.(applies := SatAdd(m.applies, 1)), co', dp', Ok(PromotionResponse(preview, response)))
  }

  method AnalyzeImpact(fp: Fingerprinter, a: View, b: View) returns (severity: Severity)
    ensures severity == Impact(fp, a, b)
  {
    var listeners := DiffNamedResources(a.listeners, b.listeners, ListenerOf, fp.listener);
    var routes := DiffNamedResources(a.routes, b.routes, RouteOf, fp.route);
    var clusters := DiffNamedResources(a.clusters, b.clusters, ClusterOf, fp.cluster);
    var l := SummarizeChangeCounts(listeners);
    var r := SummarizeChangeCounts(routes);
    var k := SummarizeChangeCounts(clusters);
    severity := SeverityOf(l, r, k);
  }

  class PromotionCoordinator {
    var metrics: PromotionMetrics

    constructor ()
      ensures metrics == PromotionMetrics(0, 0, 0)
    {
      metrics := PromotionMetrics(0, 0, 0);
    }

    method PreviewCandidate(fp: Fingerprinter, control: SnapshotControlService, candidate: string,
                            named: Option<string>)
      returns (r: Result<Preview, PromotionError>)
      modifies this
      ensures r == PreviewOf(fp, control.Model().core, candidate, named)
      ensures metrics == if r.Ok? then old(metrics).(previews := SatAdd(old(metrics).previews, 1)) else old(metrics)
    {
      var version := Trim(candidate);
      if version == [] {
        return Err(MissingCandidateVersion);
      }
      if version !in control.recordsByVersion {
        return Err(CandidateNotPublished(version));
      }
      var baseline := Baseline(Core(control.recordsByVersion, control.versionByDigest, control.history), named);
      if baseline.Err? {
        return Err(baseline.error);
      }
      var base, next := control.recordsByVersion[baseline.value], control.recordsByVersion[version];
      var severity := AnalyzeImpact(fp, base.snapshot.view, next.snapshot.view);
      metrics := metrics.(previews := SatAdd(metrics.previews, 1));
      return Ok(Compared(version, base, DigestOf(next.snapshot), severity));
    }

    method ApplyAt(verify: Verifier, hook: Hook, fp: Fingerprinter, control: SnapshotControlService,
                   rollout: RolloutCoordinator, dataplane: DataplaneSnapshotManager, request: PromotionRequest, at: nat)
      returns (r: Result<PromotionResponse, PromotionError>)
      modifies this, rollout, dataplane
      ensures (metrics, rollout.Model(), dataplane.Model(), r)
              == Promoted(verify, hook, fp, control.Model().core, old(metrics), old(rollout.Model()),
                          old(dataplane.Model()), request, at)
    {
      var preview := PreviewCandidate(fp, control, request.candidate, request.baseline);
      if preview.Err? {
        return Err(preview.error);
      }
      if preview.value.requiresAck && !request.allowStaged {
        metrics := metrics.(blocked := SatAdd(metrics.blocked, 1));
        return Err(StagedApplyRequired(preview.value.severity, preview.value.strategy));
      }
      var outcome := rollout.RolloutAt(verify, hook, control, dataplane, request.candidate, request.actor,
                                       request.reason, at);
      if outcome.Err? {
        return Err(RolloutFailed(outcome.error));
      }
      metrics := metrics.(applies := SatAdd(metrics.applies, 1));
      return Ok(PromotionResponse(preview.value, outcome.value));
    }
  }

  // ----- the gate -----

  /** The view published under a version. */
  function ViewOf(core: Core, version: string): View
    requires version in core.records
  {
    core.records[version].snapshot.view
  }

  ghost predicate AllUnique(core: Core) {
    forall v :: v in core.records ==> UniquelyNamed(ViewOf(core, v))
  }

  /** Published snapshots that came out of the compiler have uniquely named resources. */
  lemma CompiledAllUnique(env: Env, core: Core, configs: map<string, Config>)
    requires core.records.Keys <= configs.Keys
    requires forall v :: v in core.records ==> Compile(env, configs[v]) == Ok(core.records[v].snapshot)
    ensures AllUnique(core)
  {
    forall v | v in core.records ensures UniquelyNamed(ViewOf(core, v)) {
      CompiledNamesUnique(env, configs[v]);
    }
  }

  /** Moving from the baseline to `version` keeps the resources. */
  ghost predicate PromotionKeeps(core: Core, named: Option<string>, version: string) {
    && Baseline(core, named).Ok? && version in core.records
    && KeepsResources(ViewOf(core, Baseline(core, named).value), ViewOf(core, version))
  }

  /**
   A preview asks for an acknowledgement exactly when moving from the baseline to the previewed version
   does not keep the resources.
   */
  lemma PreviewExact(fp: Fingerprinter, core: Core, candidate: string, named: Option<string>)
    requires Faithful(fp) && AllUnique(core)
    ensures PreviewOf(fp, core, candidate, named).Ok? <==>
      Trim(candidate) != [] && Trim(candidate) in core.records && Baseline(core, named).Ok?
    ensures PreviewOf(fp, core, candidate, named).Ok? ==>
      (PreviewOf(fp, core, candidate, named).value.requiresAck <==> !PromotionKeeps(core, named, Trim(candidate)))
  {
    if PreviewOf(fp, core, candidate, named).Ok? {
      LowImpactExactly(fp, ViewOf(core, Baseline(core, named).value), ViewOf(core, Trim(candidate)));
    }
  }

  /**
   A promotion that can be previewed is blocked exactly when it is unacknowledged and the change to the
   previewed version does not keep the resources, and then touches neither coordinator nor dataplane.
   */
  lemma BlockedExactly(verify: Verifier, hook: Hook, fp: Fingerprinter, core: Core, m: PromotionMetrics,
                       co: Coordinator, dp: Dataplane, r: PromotionRequest, at: nat)
    requires Faithful(fp) && AllUnique(core)
    ensures
      var (_, co', dp', result) := Promoted(verify, hook, fp, core, m, co, dp, r, at);
      var blocked := result.Err? && result.error.StagedApplyRequired?;
      && (blocked <==> PreviewOf(fp, core, r.candidate, r.baseline).Ok? && !r.allowStaged
                       && !PromotionKeeps(core, r.baseline, Trim(r.candidate)))
      && (blocked ==> co' == co && dp' == dp)
  {
    PreviewExact(fp, core, r.candidate, r.baseline);
  }

  /**
   The promotion gate: for a trimmed version, whatever was promoted without acknowledgement is what the
   dataplane runs, and keeps the resources of the baseline.
   */
  lemma UnacknowledgedKeeps(verify: Verifier, hook: Hook, fp: Fingerprinter, core: Core, m: PromotionMetrics,
                             co: Coordinator, dp: Dataplane, r: PromotionRequest, at: nat)
    requires Faithful(fp) && AllUnique(core) && Safety.AllProper(core)
    requires Trim(r.candidate) == r.candidate && !r.allowStaged
    requires Promoted(verify, hook, fp, core, m, co, dp, r, at).3.Ok?
    ensures PromotionKeeps(core, r.baseline, r.candidate)
    ensures Runs(core, Promoted(verify, hook, fp, core, m, co, dp, r, at).2, r.candidate)
  {
    BlockedExactly(verify, hook, fp, core, m, co, dp, r, at);
    ActiveDigest(verify, hook, core, co, dp, r, at);
  }

  /** The dataplane runs the snapshot published under `version`. */
  ghost predicate Runs(core: Core, dp: Dataplane, version: string) {
    && version in core.records && dp.active.Some? && dp.active.value.version == version
    && dp.active.value.digest == DigestOf(core.records[version].snapshot)
  }

  lemma ActiveDigest(verify: Verifier, hook: Hook, core: Core, co: Coordinator, dp: Dataplane, r: PromotionRequest,
                     at: nat)
    requires Safety.AllProper(core)
    requires RolledOut(verify, hook, core, co, dp, r.candidate, r.actor, r.reason, at).2.Ok?
    ensures Runs(core, RolledOut(verify, hook, core, co, dp, r.candidate, r.actor, r.reason, at).1, r.candidate)
  {
    var record := core.records[r.candidate];
    assert Safety.Proper(core, r.candidate);
    ApplyMeaning(verify, hook, dp,
                 ApplyRequest(record.version, record.snapshot, record.attestation, record.digest, r.actor), at);
  }

  lemma RolledOutVersion(verify: Verifier, hook: Hook, core: Core, co: Coordinator, dp: Dataplane, version: string,
                         actor: Option<string>, reason: Option<string>, at: nat)
    requires Safety.AllProper(core)
    ensures
      var o := RolledOut(verify, hook, core, co, dp, version, actor, reason, at).2;
      o.Ok? ==> o.value.activeVersion == version
  {
    if version in core.records {
      var record := core.records[version];
      assert Safety.Proper(core, version);
      ApplyMeaning(verify, hook, dp,
                   ApplyRequest(record.version, record.snapshot, record.attestation, record.digest, actor), at);
    }
  }

  /** The version previewed is the version rolled out exactly when it was given without surrounding blanks. */
  lemma PreviewedIsAppliedExactly(verify: Verifier, hook: Hook, fp: Fingerprinter, core: Core, m: PromotionMetrics,
                                  co: Coordinator, dp: Dataplane, r: PromotionRequest, at: nat)
    requires Safety.AllProper(core)
    ensures
      var result := Promoted(verify, hook, fp, core, m, co, dp, r, at).3;
      result.Ok? ==>
        (result.value.preview.candidateVersion == result.value.rollout.activeVersion <==>
         Trim(r.candidate) == r.candidate)
  {
    RolledOutVersion(verify, hook, core, co, dp, r.candidate, r.actor, r.reason, at);
  }

  // ----- promotions that escape the gate -----

  lemma EmptyDiff<T>(name: T -> string, fingerprint: T -> string)
    ensures Diff([], [], name, fingerprint) == []
  {
    var none: Fingerprints := Index([], name, fingerprint);
    var names := AllNames(none, none);
    assert forall i :: 0 <= i < |names| ==> names[i] in names;
  }

  lemma EmptyViewsAreLow(fp: Fingerprinter, a: View, b: View)
    requires Empty(a) && Empty(b)
    ensures Impact(fp, a, b) == Low
  {
    EmptyDiff(ListenerOf, fp.listener);
    EmptyDiff(RouteOf, fp.route);
    EmptyDiff(ClusterOf, fp.cluster);
  }

  /** What a fresh dataplane runs after promoting `candidate` over `baseline` without acknowledgement, if anything. */
  function Unacknowledged(fp: Fingerprinter, core: Core, candidate: string, baseline: string): Option<Snapshot> {
    var r := PromotionRequest(candidate, Some(baseline), None, None, false);
    var (_, _, dp, result) :=
      Promoted(AnySignature, AnyHook, fp, core, PromotionMetrics(0, 0, 0), FRESH_COORDINATOR, FRESH_DATAPLANE, r, 2);
    if result.Ok? && dp.active.Some? then Some(dp.active.value.snapshot) else None
  }

  lemma LowIsPromoted(fp: Fingerprinter, core: Core, candidate: string, baseline: string)
    requires Safety.AllProper(core) && baseline in core.records && candidate in core.records
    requires Trim(candidate) in core.records
    requires VersionOk(candidate) && IsDigest(core.records[candidate].digest)
    requires Impact(fp, ViewOf(core, baseline), ViewOf(core, Trim(candidate))) == Low
    ensures Unacknowledged(fp, core, candidate, baseline) == Some(core.records[candidate].snapshot)
  {
    var record := core.records[candidate];
    assert Safety.Proper(core, candidate);
    var request := ApplyRequest(record.version, record.snapshot, record.attestation, record.digest, None);
    ApplyMeaning(AnySignature, AnyHook, FRESH_DATAPLANE, request, 2);
  }

  lemma PromotedIn(fp: Fingerprinter, core: Core, first: string, a: Snapshot, second: string, b: Snapshot)
    requires Safety.AllProper(core) && VersionOk(second) && IsDigest(DigestOf(b))
    requires first in core.records && core.records[first].snapshot == a
    requires second in core.records && core.records[second].snapshot == b
    requires Empty(a.view) && (Trim(second) == first || (Trim(second) == second && Empty(b.view)))
    ensures Unacknowledged(fp, core, second, first) == Some(b)
  {
    assert Safety.Proper(core, second);
    EmptyViewsAreLow(fp, a.view, if Trim(second) == first then a.view else b.view);
    LowIsPromoted(fp, core, second, first);
  }

  /** Two publications, then a promotion of the second whose preview compares resourceless views. */
  lemma SecondIsPromoted(fp: Fingerprinter, first: string, a: Snapshot, second: string, b: Snapshot)
    requires VersionOk(first) && VersionOk(second) && first != second
    requires IsDigest(DigestOf(a)) && IsDigest(DigestOf(b)) && DigestOf(a) != DigestOf(b)
    requires Empty(a.view) && (Trim(second) == first || (Trim(second) == second && Empty(b.view)))
    ensures
      var core := Holding(first, a, second, b);
      && first in core.records && ViewOf(core, first) == a.view
      && Unacknowledged(fp, core, second, first) == Some(b)
  {
    HoldsBoth(first, a, second, b);
    HoldingIsProper(first, a, second, b);
    PromotedIn(fp, Holding(first, a, second, b), first, a, second, b);
  }

  lemma NotKept(a: View, b: View)
    requires a.listeners == [] && b.listeners != []
    ensures !KeepsResources(a, b)
  {
    assert b.listeners[0] in b.listeners;
  }

  /**
   From an empty registry, publishing two compiled workspaces as `"1"` and `" 1"` and promoting `" 1"`
   puts a new listener into service without acknowledgement: the preview compares `"1"` with itself.
   */
  lemma BlankEscapesGate(fp: Fingerprinter)
    ensures
      var core := Holding("1", Bare(), " 1", WithListener());
      && "1" in core.records && Unacknowledged(fp, core, " 1", "1") == Some(WithListener())
      && !KeepsResources(ViewOf(core, "1"), WithListener().view)
  {
    SampleFacts();
    OneCharacter('1');
    SecondIsPromoted(fp, "1", Bare(), " 1", WithListener());
    NotKept(Bare().view, WithListener().view);
  }

  /** Two compiled workspaces that differ only in their policies: the change is promoted without acknowledgement. */
  lemma PolicyChangeEscapesGate(fp: Fingerprinter)
    ensures
      var core := Holding("1", Bare(), "2", WithPolicy());
      && "1" in core.records && Unacknowledged(fp, core, "2", "1") == Some(WithPolicy())
      && WithPolicy().view.policies != ViewOf(core, "1").policies
  {
    SampleFacts();
    OneCharacter('1');
    OneCharacter('2');
    SecondIsPromoted(fp, "1", Bare(), "2", WithPolicy());
  }
}
