/** Applying published snapshots to a dataplane, and rolling back to versions applied before. */
module Rollout {
  import opened Basics
  import opened Registry
  import opened Dataplane

  datatype Action = DoRollout | DoRollback

  datatype ResultKind = NowApplied | Unchanged | Rejected

  datatype Entry = Entry(
    action: Action, result: ResultKind, target: string, effective: Option<string>, previousActive: Option<string>,
    digest: Option<string>, actor: Option<string>, reason: Option<string>, at: nat)

  datatype RolloutMetrics = RolloutMetrics(successful: nat, idempotent: nat, failed: nat, rollbacks: nat, audited: nat,
                                           historySize: nat)

  datatype Coordinator = Coordinator(history: seq<Entry>, successful: seq<string>, metrics: RolloutMetrics)

  const FRESH_COORDINATOR: Coordinator := Coordinator([], [], RolloutMetrics(0, 0, 0, 0, 0, 0))

  datatype RolloutResponse = RolloutResponse(action: Action, result: ResultKind, activeVersion: string,
                                             activeDigest: string, lastKnownGood: string)

  datatype RolloutError =
    | InvalidRollout
    | UnknownPublishedVersion(version: string)
    | NoRollbackCandidate
    | RollbackTargetNotKnownGood(version: string)
    | Apply(error: ApplyError)

  predicate RequestOk(version: string, actor: Option<string>, reason: Option<string>) {
    VersionOk(version) && ActorOk(actor)
    && (reason.Some? ==> Trim(reason.value) != [] && Utf8Len(Trim(reason.value)) <= MAX_REASON_LEN)
  }

  function ActiveVersion(dp: Dataplane): Option<string> {
    Version(dp.active)
  }

  function Pushed(co: Coordinator, e: Entry): Coordinator {
    co.(history := co.history + [e],
        metrics := co.metrics.(audited := SatAdd(co.metrics.audited, 1), historySize := |co.history| + 1))
  }

  function Failed(co: Coordinator, e: Entry): Coordinator {
    var p := Pushed(co, e);
    p.(metrics := p.metrics.(failed := SatAdd(p.metrics.failed, 1)))
  }

  function Rejection(dp: Dataplane, action: Action, target: string, actor: Option<string>, reason: Option<string>,
                     at: nat)
    : Entry
  {
    Entry(action, Rejected, target, None, ActiveVersion(dp), None, actor, reason, at)
  }

  /** Counting an acknowledged apply; a newly applied version joins the known-good list unless it ends it. */
  function Acknowledged(co: Coordinator, action: Action, ack: Ack): Coordinator {
    var m := co.metrics.(rollbacks := if action == DoRollback then SatAdd(co.metrics.rollbacks, 1)
                         else co.metrics.rollbacks);
    match ack.outcome
    case AppliedNow =>
      var n := |co.successful|;
      co.(metrics := m.(successful := SatAdd(m.successful, 1)),
          successful := if n > 0 && co.successful[n - 1] == ack.active.version then co.successful
                        else co.successful + [ack.active.version])
    case WasActive => co.(metrics := m.(idempotent := SatAdd(m.idempotent, 1)))
  }

  function KindOf(outcome: ApplyOutcome): ResultKind {
    match outcome case AppliedNow => NowApplied case WasActive => Unchanged
  }

  type Outcome = Result<RolloutResponse, RolloutError>

  function Executed(verify: Verifier, hook: Hook, co: Coordinator, dp: Dataplane, action: Action, published: Record,
                    actor: Option<string>, reason: Option<string>, at: nat): (Coordinator, Dataplane, Outcome)
  {
    var request := ApplyRequest(published.version, published.snapshot, published.attestation, published.digest, actor);
    var (dp', result) := ApplyTo(verify, hook, dp, request, at);
    match result
    case Ok(ack) =>
      var entry := Entry(action, KindOf(ack.outcome), published.version, Some(ack.active.version), ActiveVersion(dp),
                         Some(ack.active.digest), actor, reason, at);
      (Pushed(Acknowledged(co, action, ack), entry), dp',
       Ok(RolloutResponse(action, KindOf(ack.outcome), ack.active.version, ack.active.digest,
                          ack.lastKnownGood.version)))
    case Err(error) =>
      var entry := Entry(action, Rejected, published.version, ActiveVersion(dp'), ActiveVersion(dp),
                         Some(published.digest), actor, reason, at);
      (Failed(co, entry), dp', Err(Apply(error)))
  }

  function RolledOut(verify: Verifier, hook: Hook, core: Core, co: Coordinator, dp: Dataplane, version: string,
                     actor: Option<string>, reason: Option<string>, at: nat): (Coordinator, Dataplane, Outcome)
  {
    if !RequestOk(version, actor, reason) then
      (Failed(co, Rejection(dp, DoRollout, version, actor, reason, at)), dp, Err(InvalidRollout))
    else if version !in core.records then
      (Failed(co, Rejection(dp, DoRollout, version, actor, reason, at)), dp, Err(UnknownPublishedVersion(version)))
    else
      Executed(verify, hook, co, dp, DoRollout, core.records[version], actor, reason, at)
  }

  /** The newest known-good version other than the active one. */
  function Candidate(successful: seq<string>, active: Option<string>): Option<string> {
    if successful == [] then None
    else
      var last := successful[|successful| - 1];
      if Some(last) != active then Some(last) else Candidate(successful[..|successful| - 1], active)
  }

  /** Where a rollback goes, or why it goes nowhere; a malformed explicit target leaves no trace. */
  function Target(co: Coordinator, dp: Dataplane, target: Option<string>, actor: Option<string>, reason: Option<string>)
    : Result<string, RolloutError>
  {
    match target
    case Some(version) =>
      if !RequestOk(version, actor, reason) then Err(InvalidRollout)
      else if version !in co.successful then Err(RollbackTargetNotKnownGood(version))
      else Ok(version)
    case None =>
      match Candidate(co.successful, ActiveVersion(dp))
      case Some(version) => Ok(version)
      case None => Err(NoRollbackCandidate)
  }

  const PREVIOUS_KNOWN_GOOD: string := "<previous-known-good>"

  function RolledBack(verify: Verifier, hook: Hook, core: Core, co: Coordinator, dp: Dataplane, target: Option<string>,
                      actor: Option<string>, reason: Option<string>, at: nat): (Coordinator, Dataplane, Outcome)
  {
    match Target(co, dp, target, actor, reason)
    case Err(error) =>
      if error.InvalidRollout? then (co, dp, Err(error))
      else
        var named := match target case Some(version) => version case None => PREVIOUS_KNOWN_GOOD;
        (Failed(co, Rejection(dp, DoRollback, named, actor, reason, at)), dp, Err(error))
    case Ok(version) =>
      if version !in core.records then
        (Failed(co, Rejection(dp, DoRollback, version, actor, reason, at)), dp, Err(UnknownPublishedVersion(version)))
      else
        Executed(verify, hook, co, dp, DoRollback, core.records[version], actor, reason, at)
  }

  class RolloutCoordinator {
    var history: seq<Entry>
    var successfulVersions: seq<string>
    var metrics: RolloutMetrics

    ghost function Model(): Coordinator
      reads this
    {
      Coordinator(history, successfulVersions, metrics)
    }

    constructor ()
      ensures Model() == FRESH_COORDINATOR
    {
      history, successfulVersions, metrics := [], [], RolloutMetrics(0, 0, 0, 0, 0, 0);
    }

    method PushHistory(entry: Entry)
      modifies this
      ensures Model() == Pushed(old(Model()), entry)
    {
      history := history + [entry];
      metrics := metrics.(audited := SatAdd(metrics.audited, 1), historySize := |history|);
    }

    method Reject(entry: Entry)
      modifies this
      ensures Model() == Failed(old(Model()), entry)
    {
      PushHistory(entry);
      metrics := metrics.(failed := SatAdd(metrics.failed, 1));
    }

    method RolloutAt(verify: Verifier, hook: Hook, control: SnapshotControlService, dataplane: DataplaneSnapshotManager,
                     version: string, actor: Option<string>, reason: Option<string>, at: nat) returns (r: Outcome)
      modifies this, dataplane
      ensures (Model(), dataplane.Model(), r)
              == RolledOut(verify, hook, control.Model().core, old(Model()), old(dataplane.Model()), version, actor,
                           reason, at)
    {
      ghost var dp := dataplane.Model();
      if !RequestOk(version, actor, reason) {
        Reject(Entry(DoRollout, Rejected, version, None, Version(dataplane.active), None, actor, reason, at));
        return Err(InvalidRollout);
      }
      if version !in control.recordsByVersion {
        Reject(Entry(DoRollout, Rejected, version, None, Version(dataplane.active), None, actor, reason, at));
        return Err(UnknownPublishedVersion(version));
      }
      r := ExecuteAction(verify, hook, dataplane, DoRollout, control.recordsByVersion[version], actor, reason, at);
    }

    method RollbackAt(verify: Verifier, hook: Hook, control: SnapshotControlService,
                      dataplane: DataplaneSnapshotManager, target: Option<string>, actor: Option<string>,
                      reason: Option<string>, at: nat)
      returns (r: Outcome)
      modifies this, dataplane
      ensures (Model(), dataplane.Model(), r)
              == RolledBack(verify, hook, control.Model().core, old(Model()), old(dataplane.Model()), target, actor,
                            reason, at)
    {
      var version: string;
      match target {
        case Some(named) =>
          if !RequestOk(named, actor, reason) {
            return Err(InvalidRollout);
          }
          if named !in successfulVersions {
            Reject(Entry(DoRollback, Rejected, named, None, Version(dataplane.active), None, actor, reason, at));
            return Err(RollbackTargetNotKnownGood(named));
          }
          version := named;
        case None =>
          var found := FindCandidate(successfulVersions, Version(dataplane.active));
          if found.None? {
            Reject(Entry(DoRollback, Rejected, PREVIOUS_KNOWN_GOOD, None, Version(dataplane.active), None, actor,
                         reason, at));
            return Err(NoRollbackCandidate);
          }
          version := found.value;
      }
      if version !in control.recordsByVersion {
        Reject(Entry(DoRollback, Rejected, version, None, Version(dataplane.active), None, actor, reason, at));
        return Err(UnknownPublishedVersion(version));
      }
      r := ExecuteAction(verify, hook, dataplane, DoRollback, control.recordsByVersion[version], actor, reason, at);
    }

    method ExecuteAction(verify: Verifier, hook: Hook, dataplane: DataplaneSnapshotManager, action: Action,
                         published: Record, actor: Option<string>, reason: Option<string>, at: nat) returns (r: Outcome)
      modifies this, dataplane
      ensures (Model(), dataplane.Model(), r)
              == Executed(verify, hook, old(Model()), old(dataplane.Model()), action, published, actor, reason, at)
    {
      var previous := Version(dataplane.active);
      var result := dataplane.ApplyAt(verify, hook,
        ApplyRequest(published.version, published.snapshot, published.attestation, published.digest, actor), at);
      match result {
        case Ok(ack) =>
          Acknowledge(action, ack);
          PushHistory(Entry(action, KindOf(ack.outcome), published.version, Some(ack.active.version), previous,
                            Some(ack.active.digest), actor, reason, at));
          return Ok(RolloutResponse(action, KindOf(ack.outcome), ack.active.version, ack.active.digest,
                                    ack.lastKnownGood.version));
        case Err(error) =>
          Reject(Entry(action, Rejected, published.version, Version(dataplane.active), previous,
                       Some(published.digest), actor, reason, at));
          return Err(Apply(error));
      }
    }

    method Acknowledge(action: Action, ack: Ack)
      modifies this
      ensures Model() == Acknowledged(old(Model()), action, ack)
    {
      if action == DoRollback {
        metrics := metrics.(rollbacks := SatAdd(metrics.rollbacks, 1));
      }
      match ack.outcome {
        case AppliedNow =>
          metrics := metrics.(successful := SatAdd(metrics.successful, 1));
          if successfulVersions == [] || successfulVersions[|successfulVersions| - 1] != ack.active.version {
            successfulVersions := successfulVersions + [ack.active.version];
          }
        case WasActive =>
          metrics := metrics.(idempotent := SatAdd(metrics.idempotent, 1));
      }
    }
  }

  function Version(active: Option<Applied>): Option<string> {
    match active case Some(a) => Some(a.version) case None => None
  }

  /** Searches the known-good versions from the newest. */
  method FindCandidate(successful: seq<string>, active: Option<string>) returns (found: Option<string>)
    ensures found == Candidate(successful, active)
  {
    var i := |successful|;
    assert successful[..i] == successful;
    while i > 0
      invariant 0 <= i <= |successful|
      invariant Candidate(successful, active) == Candidate(successful[..i], active)
    {
      assert successful[..i][..i - 1] == successful[..i - 1];
      if Some(successful[i - 1]) != active {
        return Some(successful[i - 1]);
      }
      i := i - 1;
    }
    found := None;
  }
}
