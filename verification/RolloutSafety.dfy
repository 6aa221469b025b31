/** What holds of registry, coordinator and dataplane together when every apply goes through the coordinator. */
module RolloutSafety {
  import opened Basics
  import opened Registry
  import opened Dataplane
  import opened Rollout

  datatype System = System(registry: State, co: Coordinator, dp: Dataplane)

  datatype Op =
    | Registry(op: Registry.Op)
    | Rollout(hook: Hook, version: string, actor: Option<string>, reason: Option<string>, at: nat)
    | Rollback(hook: Hook, target: Option<string>, actor: Option<string>, reason: Option<string>, at: nat)

  ghost function Apply(verify: Verifier, s: System, op: Op): System {
    match op
    case Registry(o) => s.(registry := Registry.Apply(verify, s.registry, o))
    case Rollout(hook, version, actor, reason, at) =>
      var (co, dp, _) := RolledOut(verify, hook, s.registry.core, s.co, s.dp, version, actor, reason, at);
      s.(co := co, dp := dp)
    case Rollback(hook, target, actor, reason, at) =>
      var (co, dp, _) := RolledBack(verify, hook, s.registry.core, s.co, s.dp, target, actor, reason, at);
      s.(co := co, dp := dp)
  }

  ghost function Run(verify: Verifier, s: System, ops: seq<Op>): System
    decreases ops
  {
    if ops == [] then s else Run(verify, Apply(verify, s, ops[0]), ops[1..])
  }

  /** The dataplane runs a published version: the last one the coordinator applied. */
  ghost predicate ActiveIsLast(core: Core, co: Coordinator, dp: Dataplane) {
    if co.successful == [] then dp.active.None?
    else
      && dp.active.Some? && dp.active.value.version == co.successful[|co.successful| - 1]
      && dp.active.value.version in core.records
      && dp.active.value.digest == core.records[dp.active.value.version].digest
  }

  ghost predicate KnownGood(core: Core, successful: seq<string>) {
    && (forall i :: 0 <= i < |successful| ==> successful[i] in core.records)
    && (forall i :: 0 < i < |successful| ==> successful[i - 1] != successful[i])
  }

  /** Every history entry is counted as successful, idempotent or failed, until a counter could saturate. */
  predicate Counted(co: Coordinator) {
    && co.metrics.historySize == |co.history|
    && (|co.history| <= U64_MAX ==>
          co.metrics.successful + co.metrics.idempotent + co.metrics.failed == |co.history|)
  }

  ghost predicate Linked(core: Core, co: Coordinator, dp: Dataplane) {
    ActiveIsLast(core, co, dp) && KnownGood(core, co.successful) && Counted(co)
  }

  ghost predicate Inv(verify: Verifier, s: System) {
    Registry.Inv(verify, s.registry) && Linked(s.registry.core, s.co, s.dp)
  }

  /** What the registry invariant says of one record, and all that applying it needs. */
  predicate Proper(core: Core, version: string) {
    version in core.records && core.records[version].version == version
    && core.records[version].digest == DigestOf(core.records[version].snapshot)
  }

  ghost predicate AllProper(core: Core) {
    forall v :: v in core.records ==> Proper(core, v)
  }

  lemma ExecuteKeeps(verify: Verifier, hook: Hook, core: Core, co: Coordinator, dp: Dataplane, action: Action,
                     version: string, actor: Option<string>, reason: Option<string>, at: nat)
    requires Linked(core, co, dp) && Proper(core, version)
    ensures
      var (co', dp', r) := Executed(verify, hook, co, dp, action, core.records[version], actor, reason, at);
      && Linked(core, co', dp')
      && (r.Ok? ==> ActiveVersion(dp') == Some(version) && r.value.activeVersion == version)
      && (r.Err? ==> r.error.Apply? && dp'.active == dp.active && co'.successful == co.successful)
      && (r.Ok? ==> co'.successful == if ActiveVersion(dp) == Some(version) then co.successful
          else co.successful + [version])
  {
    var record := core.records[version];
    var request := ApplyRequest(record.version, record.snapshot, record.attestation, record.digest, actor);
    ApplyMeaning(verify, hook, dp, request, at);
  }

  lemma GrowthKeeps(a: Core, b: Core, co: Coordinator, dp: Dataplane)
    requires Grows(a, b) && Linked(a, co, dp)
    ensures Linked(b, co, dp)
  {
  }

  lemma FailureKeeps(core: Core, co: Coordinator, dp: Dataplane, entry: Entry)
    requires Linked(core, co, dp)
    ensures Linked(core, Failed(co, entry), dp)
  {
  }

  lemma RolloutKeeps(verify: Verifier, hook: Hook, core: Core, co: Coordinator, dp: Dataplane, version: string,
                     actor: Option<string>, reason: Option<string>, at: nat)
    requires Linked(core, co, dp) && (version in core.records ==> Proper(core, version))
    ensures
      var (co', dp', _) := RolledOut(verify, hook, core, co, dp, version, actor, reason, at);
      Linked(core, co', dp')
  {
    FailureKeeps(core, co, dp, Rejection(dp, DoRollout, version, actor, reason, at));
    if version in core.records {
      ExecuteKeeps(verify, hook, core, co, dp, DoRollout, version, actor, reason, at);
    }
  }

  lemma RollbackKeeps(verify: Verifier, hook: Hook, core: Core, co: Coordinator, dp: Dataplane, target: Option<string>,
                      actor: Option<string>, reason: Option<string>, at: nat)
    requires Linked(core, co, dp) && AllProper(core)
    ensures
      var (co', dp', _) := RolledBack(verify, hook, core, co, dp, target, actor, reason, at);
      Linked(core, co', dp')
  {
    var found := Target(co, dp, target, actor, reason);
    if found.Ok? {
      FailureKeeps(core, co, dp, Rejection(dp, DoRollback, found.value, actor, reason, at));
      if found.value in core.records {
        ExecuteKeeps(verify, hook, core, co, dp, DoRollback, found.value, actor, reason, at);
      }
    } else {
      var named := match target case Some(version) => version case None => PREVIOUS_KNOWN_GOOD;
      FailureKeeps(core, co, dp, Rejection(dp, DoRollback, named, actor, reason, at));
    }
  }

  lemma RecordsProper(verify: Verifier, st: State)
    requires Registry.Inv(verify, st)
    ensures AllProper(st.core)
  {
  }

  lemma StepKeepsInv(verify: Verifier, s: System, op: Op)
    requires Inv(verify, s)
    ensures Inv(verify, Apply(verify, s, op))
  {
    match op {
      case Registry(o) =>
        Registry.StepKeepsInv(verify, s.registry, o);
        GrowthKeeps(s.registry.core, Registry.Apply(verify, s.registry, o).core, s.co, s.dp);
      case Rollout(hook, version, actor, reason, at) =>
        RecordsProper(verify, s.registry);
        RolloutKeeps(verify, hook, s.registry.core, s.co, s.dp, version, actor, reason, at);
      case Rollback(hook, target, actor, reason, at) =>
        RecordsProper(verify, s.registry);
        RollbackKeeps(verify, hook, s.registry.core, s.co, s.dp, target, actor, reason, at);
    }
  }

  /**
   Over every run of publications, restores, rollouts and rollbacks, whatever the hook answers, the
   last successful version is the active one, every known-good version stays published, and the
   counters account for the whole history.
   */
  lemma {:induction false} RolloutInvariant(verify: Verifier, s: System, ops: seq<Op>)
    requires Inv(verify, s)
    ensures Inv(verify, Run(verify, s, ops))
    decreases ops
  {
    if ops != [] {
      StepKeepsInv(verify, s, ops[0]);
      RolloutInvariant(verify, Apply(verify, s, ops[0]), ops[1..]);
    }
  }

  lemma FreshSystem(verify: Verifier)
    ensures Inv(verify, System(EMPTY, FRESH_COORDINATOR, FRESH_DATAPLANE))
  {
  }

  /** With no target, a rollback goes to the version applied just before the active one. */
  lemma CandidateIsPrevious(core: Core, co: Coordinator, dp: Dataplane)
    requires ActiveIsLast(core, co, dp) && KnownGood(core, co.successful)
    ensures
      var n := |co.successful|;
      Candidate(co.successful, ActiveVersion(dp)) == if n >= 2 then Some(co.successful[n - 2]) else None
  {
    var n := |co.successful|;
    if n >= 2 {
      var front := co.successful[..n - 1];
      assert front[|front| - 1] == co.successful[n - 2];
      assert Candidate(co.successful, ActiveVersion(dp)) == Candidate(front, ActiveVersion(dp));
    } else if n == 1 {
      assert co.successful[..0] == [];
    }
  }

  /**
   A rollback lands only on a version applied before, never fails to find it published, and with no
   target given finds a candidate exactly when at least two versions were applied in turn.
   */
  lemma RollbackTargetsKnownGood(verify: Verifier, hook: Hook, core: Core, co: Coordinator, dp: Dataplane,
                                 target: Option<string>, actor: Option<string>, reason: Option<string>, at: nat)
    requires Linked(core, co, dp) && AllProper(core)
    ensures
      var (co', dp', r) := RolledBack(verify, hook, core, co, dp, target, actor, reason, at);
      && (r.Ok? ==> r.value.activeVersion in co.successful && (target.Some? ==> r.value.activeVersion == target.value))
      && (r.Err? ==> !r.error.UnknownPublishedVersion? && dp'.active == dp.active && co'.successful == co.successful)
      && (target.None? ==> (r == Err(NoRollbackCandidate) <==> |co.successful| < 2))
  {
    CandidateIsPrevious(core, co, dp);
    var found := Target(co, dp, target, actor, reason);
    if found.Ok? {
      assert found.value in co.successful && Proper(core, found.value);
      ExecuteKeeps(verify, hook, core, co, dp, DoRollback, found.value, actor, reason, at);
    }
  }

  lemma PlainRollback(verify: Verifier, hook: Hook, core: Core, co: Coordinator, dp: Dataplane,
                      actor: Option<string>, reason: Option<string>, at: nat)
    requires Linked(core, co, dp) && AllProper(core)
    requires |co.successful| >= 2 && RolledBack(verify, hook, core, co, dp, None, actor, reason, at).2.Ok?
    ensures
      var n := |co.successful|;
      var (co', dp', _) := RolledBack(verify, hook, core, co, dp, None, actor, reason, at);
      Linked(core, co', dp') && co'.successful == co.successful + [co.successful[n - 2]]
  {
    var version := co.successful[|co.successful| - 2];
    CandidateIsPrevious(core, co, dp);
    assert Proper(core, version);
    ExecuteKeeps(verify, hook, core, co, dp, DoRollback, version, actor, reason, at);
  }

  lemma TwoRollbacks(verify: Verifier, core: Core, grown: Core, co: Coordinator, dp: Dataplane, first: Op, second: Op)
    requires first.Rollback? && second.Rollback?
    requires Linked(core, co, dp) && AllProper(core) && Grows(core, grown) && AllProper(grown)
    requires RolledBack(verify, first.hook, core, co, dp, None, first.actor, first.reason, first.at).2.Ok?
    requires
      var (co1, dp1, _) := RolledBack(verify, first.hook, core, co, dp, None, first.actor, first.reason, first.at);
      RolledBack(verify, second.hook, grown, co1, dp1, None, second.actor, second.reason, second.at).2.Ok?
    ensures
      var (co1, dp1, _) := RolledBack(verify, first.hook, core, co, dp, None, first.actor, first.reason, first.at);
      var (_, dp2, _) := RolledBack(verify, second.hook, grown, co1, dp1, None, second.actor, second.reason, second.at);
      ActiveVersion(dp2) == ActiveVersion(dp)
  {
    RollbackTargetsKnownGood(verify, first.hook, core, co, dp, None, first.actor, first.reason, first.at);
    PlainRollback(verify, first.hook, core, co, dp, first.actor, first.reason, first.at);
    var (co1, dp1, _) := RolledBack(verify, first.hook, core, co, dp, None, first.actor, first.reason, first.at);
    GrowthKeeps(core, grown, co1, dp1);
    PlainRollback(verify, second.hook, grown, co1, dp1, second.actor, second.reason, second.at);
  }

  /**
   Two successful rollbacks without a target, with any registry operations in between, restore the
   version that was active before.
   */
  lemma RollbackIsInvolutive(verify: Verifier, s: System, first: Op, between: seq<Registry.Op>, second: Op)
    requires Inv(verify, s) && first.Rollback? && first.target.None? && second.Rollback? && second.target.None?
    requires RolledBack(verify, first.hook, s.registry.core, s.co, s.dp, None, first.actor, first.reason,
                        first.at).2.Ok?
    requires
      var s1 := Apply(verify, s, first);
      var core := Registry.Run(verify, s1.registry, between).core;
      RolledBack(verify, second.hook, core, s1.co, s1.dp, None, second.actor, second.reason, second.at).2.Ok?
    ensures
      var s1 := Apply(verify, s, first);
      var s2 := s1.(registry := Registry.Run(verify, s1.registry, between));
      ActiveVersion(Apply(verify, s2, second).dp) == ActiveVersion(s.dp)
  {
    var s1 := Apply(verify, s, first);
    RegistryInvariant(verify, s1.registry, between);
    RecordsProper(verify, s.registry);
    var grown := Registry.Run(verify, s1.registry, between);
    RecordsProper(verify, grown);
    TwoRollbacks(verify, s.registry.core, grown.core, s.co, s.dp, first, second);
  }
}
