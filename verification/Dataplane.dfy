/** The dataplane's snapshot manager: one active snapshot, replaced only by a fully accepted one. */
module Dataplane {
  import opened Basics
  import opened Compiler
  import opened Registry

  datatype Applied = Applied(
    version: string, workspaceName: string, digest: string, at: nat, acknowledgedBy: Option<string>, snapshot: Snapshot)

  datatype ApplyRequest = ApplyRequest(
    version: string, snapshot: Snapshot, attestation: Option<string>, expectedDigest: string,
    acknowledgedBy: Option<string>)

  datatype ApplyOutcome = AppliedNow | WasActive

  datatype Ack = Ack(outcome: ApplyOutcome, active: Applied, lastKnownGood: Applied)

  datatype ApplyError = InvalidApply | IntegrityFailed | ActivationFailed

  datatype Lifecycle = Idle | Active(version: string, digest: string) | ApplyFailed(version: string, digest: string)

  datatype ApplyMetrics = ApplyMetrics(success: nat, noop: nat, integrity: nat, activation: nat)

  datatype Dataplane = Dataplane(
    active: Option<Applied>, lastKnownGood: Option<Applied>, lifecycle: Lifecycle, metrics: ApplyMetrics)

  const FRESH_DATAPLANE: Dataplane := Dataplane(None, None, Idle, ApplyMetrics(0, 0, 0, 0))

  /** Whether the activation hook accepts a snapshot; it may answer differently from call to call. */
  type Hook = Snapshot -> bool

  predicate ActorOk(actor: Option<string>) {
    actor.Some? ==> Trim(actor.value) != [] && Utf8Len(Trim(actor.value)) <= MAX_ACTOR_LEN
  }

  predicate VersionOk(version: string) {
    Trim(version) != [] && Utf8Len(Trim(version)) <= MAX_VERSION_LEN && IsVersionText(Trim(version))
  }

  predicate ApplyValid(r: ApplyRequest) {
    VersionOk(r.version) && IsDigest(DigestOf(r.snapshot)) && IsDigest(r.expectedDigest)
    && r.expectedDigest == DigestOf(r.snapshot) && ActorOk(r.acknowledgedBy)
  }

  function ApplyTo(verify: Verifier, hook: Hook, dp: Dataplane, r: ApplyRequest, at: nat)
    : (Dataplane, Result<Ack, ApplyError>)
  {
    var digest, m := DigestOf(r.snapshot), dp.metrics;
    if !ApplyValid(r) then
      (dp.(lifecycle := ApplyFailed(r.version, digest), metrics := m.(integrity := SatAdd(m.integrity, 1))),
       Err(InvalidApply))
    else if !verify(r.snapshot, r.attestation) then
      (dp.(lifecycle := ApplyFailed(r.version, digest), metrics := m.(integrity := SatAdd(m.integrity, 1))),
       Err(IntegrityFailed))
    else if dp.active.Some? && dp.active.value.version == r.version && dp.active.value.digest == digest then
      (dp.(lifecycle := Active(r.version, digest), metrics := m.(noop := SatAdd(m.noop, 1))),
       Ok(Ack(WasActive, dp.active.value, if dp.lastKnownGood.Some? then dp.lastKnownGood.value else dp.active.value)))
    else if !hook(r.snapshot) then
      (dp.(lifecycle := ApplyFailed(r.version, digest), metrics := m.(activation := SatAdd(m.activation, 1))),
       Err(ActivationFailed))
    else
      var record := Applied(r.version, r.snapshot.view.workspaceName, digest, at, r.acknowledgedBy, r.snapshot);
      (Dataplane(Some(record), Some(record), Active(r.version, digest), m.(success := SatAdd(m.success, 1))),
       Ok(Ack(AppliedNow, record, record)))
  }

  class DataplaneSnapshotManager {
    var active: Option<Applied>
    var lastKnownGood: Option<Applied>
    var lifecycle: Lifecycle
    var metrics: ApplyMetrics

    ghost function Model(): Dataplane
      reads this
    {
      Dataplane(active, lastKnownGood, lifecycle, metrics)
    }

    constructor ()
      ensures Model() == FRESH_DATAPLANE
    {
      active, lastKnownGood, lifecycle, metrics := None, None, Idle, ApplyMetrics(0, 0, 0, 0);
    }

    method ApplyAt(verify: Verifier, hook: Hook, request: ApplyRequest, at: nat) returns (r: Result<Ack, ApplyError>)
      modifies this
      ensures (Model(), r) == ApplyTo(verify, hook, old(Model()), request, at)
    {
      var digest := DigestOf(request.snapshot);
      if !ApplyValid(request) {
        lifecycle := ApplyFailed(request.version, digest);
        metrics := metrics.(integrity := SatAdd(metrics.integrity, 1));
        return Err(InvalidApply);
      }
      if !verify(request.snapshot, request.attestation) {
        lifecycle := ApplyFailed(request.version, digest);
        metrics := metrics.(integrity := SatAdd(metrics.integrity, 1));
        return Err(IntegrityFailed);
      }
      if active.Some? && active.value.version == request.version && active.value.digest == digest {
        metrics := metrics.(noop := SatAdd(metrics.noop, 1));
        lifecycle := Active(active.value.version, active.value.digest);
        return Ok(Ack(WasActive, active.value, if lastKnownGood.Some? then lastKnownGood.value else active.value));
      }
      if !hook(request.snapshot) {
        lifecycle := ApplyFailed(request.version, digest);
        metrics := metrics.(activation := SatAdd(metrics.activation, 1));
        return Err(ActivationFailed);
      }
      var record := Applied(request.version, request.snapshot.view.workspaceName, digest, at, request.acknowledgedBy,
                            request.snapshot);
      active := Some(record);
      lastKnownGood := Some(record);
      metrics := metrics.(success := SatAdd(metrics.success, 1));
      lifecycle := Active(request.version, digest);
      return Ok(Ack(AppliedNow, record, record));
    }
  }

  /** A failed apply leaves the active snapshot alone; a new one replaces it and becomes known good. */
  lemma ApplyMeaning(verify: Verifier, hook: Hook, dp: Dataplane, r: ApplyRequest, at: nat)
    ensures
      var (dp', result) := ApplyTo(verify, hook, dp, r, at);
      var same := dp.active.Some? && dp.active.value.version == r.version
        && dp.active.value.digest == DigestOf(r.snapshot);
      && (result.Ok? <==> ApplyValid(r) && verify(r.snapshot, r.attestation) && (same || hook(r.snapshot)))
      && (result.Err? || same ==> dp'.active == dp.active && dp'.lastKnownGood == dp.lastKnownGood)
      && (result.Ok? ==> dp'.active == Some(result.value.active)
                         && dp'.active.value.version == r.version && dp'.active.value.digest == DigestOf(r.snapshot))
      && (result.Ok? && !same ==> dp'.lastKnownGood == dp'.active && dp'.active.value.snapshot == r.snapshot)
      && (result.Ok? ==> (result.value.outcome == WasActive <==> same))
  {
  }
}
