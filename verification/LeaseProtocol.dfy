/**
 Several replicas share one lease record and one clock. A run interleaves their evaluations with the
 lease writes those evaluations ask for; a renewal or release write may be lost, and a replica may
 restart. Replicas are keyed by identity, so identities are distinct.
 */
module LeaseProtocol {
  import opened Basics
  import opened LeaderElection

  datatype Replica = Replica(config: ElectionConfig, state: LeadershipState, evaluatedAt: nat)

  datatype World = World(now: nat, lease: Option<LeaseRecord>, replicas: map<string, Replica>)

  datatype Step =
    | Tick(ms: nat)
    | Evaluate(id: string)                     // evaluation whose write, if any, is lost
    | AcquireLease(id: string, transitions: nat)
    | RenewLease(id: string)
    | Relinquish(id: string, written: bool)
    | Restart(id: string)

  function ActionOf(w: World, id: string): LeaseAction
    requires id in w.replicas
  {
    Evaluated(w.replicas[id].config, w.replicas[id].state, w.lease, w.now).1
  }

  predicate Enabled(w: World, step: Step) {
    match step
    case Tick(_) => true
    case Evaluate(id) => id in w.replicas
    case AcquireLease(id, _) => id in w.replicas && ActionOf(w, id) == Acquire
    case RenewLease(id) => id in w.replicas && ActionOf(w, id) == Renew
    case Relinquish(id, _) => id in w.replicas
    case Restart(id) => id in w.replicas
  }

  function WithState(w: World, id: string, state: LeadershipState): World
    requires id in w.replicas
  {
    w.(replicas := w.replicas[id := w.replicas[id].(state := state, evaluatedAt := w.now)])
  }

  function Do(w: World, step: Step): World
    requires Enabled(w, step)
  {
    match step
    case Tick(ms) => w.(now := w.now + ms)
    case Evaluate(id) =>
      WithState(w, id, Evaluated(w.replicas[id].config, w.replicas[id].state, w.lease, w.now).0)
    case AcquireLease(id, transitions) =>
      var record := LeaseRecord(Some(id), w.now, w.replicas[id].config.leaseDuration, transitions);
      WithState(w, id, Leader(id)).(lease := Some(record))
    case RenewLease(id) =>
      var record := w.lease.value.(renewTime := w.now, leaseDuration := w.replicas[id].config.leaseDuration);
      WithState(w, id, Leader(id)).(lease := Some(record))
    case Relinquish(id, written) =>
      var (state, action) := Relinquished(w.replicas[id].config, w.replicas[id].state);
      var stepped := w.(replicas := w.replicas[id := w.replicas[id].(state := state)]);
      if action == Release && written && HeldBy(w.lease, id)
      then stepped.(lease := Some(w.lease.value.(holder := None)))
      else stepped
    case Restart(id) => WithState(w, id, Starting)
  }

  /** Every writing replica re-evaluated at most `allowed(id)` milliseconds ago. */
  ghost predicate Timely(w: World, allowed: string -> nat) {
    forall id :: id in w.replicas && w.replicas[id].state.AllowsWrite()
                 ==> w.now <= w.replicas[id].evaluatedAt + allowed(id)
  }

  ghost predicate IsRun(w: World, steps: seq<Step>, allowed: string -> nat)
    decreases steps
  {
    steps == [] || (Enabled(w, steps[0]) && Timely(Do(w, steps[0]), allowed)
                    && IsRun(Do(w, steps[0]), steps[1..], allowed))
  }

  ghost function After(w: World, steps: seq<Step>, allowed: string -> nat): World
    requires IsRun(w, steps, allowed)
    decreases steps
  {
    if steps == [] then w else After(Do(w, steps[0]), steps[1..], allowed)
  }

  ghost predicate Exclusive(w: World) {
    forall a, b | a in w.replicas && b in w.replicas ::
      w.replicas[a].state.AllowsWrite() && w.replicas[b].state.AllowsWrite() ==> a == b
  }

  /** What deployment provides: election on, the deadline below the lease, identities as keys. */
  ghost predicate Deployed(w: World) {
    && (forall id :: id in w.replicas ==>
          && w.replicas[id].config.enabled && w.replicas[id].config.identity == id
          && w.replicas[id].config.renewDeadline < w.replicas[id].config.leaseDuration)
    && (w.lease.Some? && w.lease.value.holder.Some? && w.lease.value.holder.value in w.replicas ==>
          w.lease.value.leaseDuration == w.replicas[w.lease.value.holder.value].config.leaseDuration)
  }

  ghost predicate Initial(w: World) {
    Deployed(w) && forall id :: id in w.replicas ==> w.replicas[id].state == Starting
  }

  /** A writer holds the record it last evaluated, and then it was within its own renew deadline. */
  ghost predicate WriterHolds(w: World, id: string)
    requires id in w.replicas
  {
    && HeldBy(w.lease, id)
    && w.replicas[id].evaluatedAt <= w.lease.value.renewTime + w.replicas[id].config.renewDeadline
  }

  ghost predicate Inv(w: World) {
    Deployed(w) && forall id :: id in w.replicas && w.replicas[id].state.AllowsWrite() ==> WriterHolds(w, id)
  }

  /** The slack between the renew deadline and the lease duration: the time nobody else may claim. */
  function Slack(w: World, id: string): int
    requires id in w.replicas
  {
    w.replicas[id].config.leaseDuration - w.replicas[id].config.renewDeadline
  }

  ghost predicate WithinSlack(w: World, allowed: string -> nat) {
    forall id :: id in w.replicas ==> allowed(id) <= Slack(w, id)
  }

  /** While a timely writer exists, no other replica finds the lease claimable. */
  lemma WriterBlocksAcquire(w: World, writer: string, other: string, allowed: string -> nat)
    requires Inv(w) && Timely(w, allowed) && WithinSlack(w, allowed)
    requires writer in w.replicas && other in w.replicas && writer != other
    requires w.replicas[writer].state.AllowsWrite()
    ensures ActionOf(w, other) != Acquire
  {
    assert WriterHolds(w, writer);
    assert allowed(writer) <= Slack(w, writer);
  }

  lemma StepKeepsInv(w: World, step: Step, allowed: string -> nat)
    requires Inv(w) && Timely(w, allowed) && WithinSlack(w, allowed) && Enabled(w, step)
    ensures Inv(Do(w, step)) && WithinSlack(Do(w, step), allowed)
  {
    StepKeepsConfigs(w, step);
    var w' := Do(w, step);
    forall id | id in w'.replicas && w'.replicas[id].state.AllowsWrite() ensures WriterHolds(w', id) {
      WriterStillHolds(w, step, allowed, id);
    }
    assert forall id :: id in w'.replicas ==> Slack(w', id) == Slack(w, id);
  }

  lemma StepKeepsConfigs(w: World, step: Step)
    requires Enabled(w, step)
    ensures Do(w, step).replicas.Keys == w.replicas.Keys
    ensures forall id :: id in w.replicas ==> Do(w, step).replicas[id].config == w.replicas[id].config
  {
  }

  lemma WriterStillHolds(w: World, step: Step, allowed: string -> nat, id: string)
    requires Inv(w) && Timely(w, allowed) && WithinSlack(w, allowed) && Enabled(w, step)
    requires id in Do(w, step).replicas && Do(w, step).replicas[id].state.AllowsWrite()
    ensures WriterHolds(Do(w, step), id)
  {
    if w.replicas[id].state.AllowsWrite() {
      assert WriterHolds(w, id);
      if step.AcquireLease? && step.id != id {
        WriterBlocksAcquire(w, id, step.id, allowed);
      }
    }
  }

  /** Every run whose writers re-evaluate within their slack has at most one writer throughout. */
  lemma {:induction false} MutualExclusion(w: World, steps: seq<Step>, allowed: string -> nat)
    requires Inv(w) && Timely(w, allowed) && WithinSlack(w, allowed)
    requires IsRun(w, steps, allowed)
    ensures Inv(After(w, steps, allowed)) && Exclusive(After(w, steps, allowed))
    decreases steps
  {
    if steps == [] {
      forall a, b | a in w.replicas && b in w.replicas
                    && w.replicas[a].state.AllowsWrite() && w.replicas[b].state.AllowsWrite()
        ensures a == b
      {
        assert WriterHolds(w, a) && WriterHolds(w, b);
      }
    } else {
      StepKeepsInv(w, steps[0], allowed);
      MutualExclusion(Do(w, steps[0]), steps[1..], allowed);
    }
  }

  // ----- the slack is exactly what is needed -----

  lemma {:induction false} RunsCompose(w: World, first: seq<Step>, second: seq<Step>, allowed: string -> nat)
    requires IsRun(w, first, allowed) && IsRun(After(w, first, allowed), second, allowed)
    ensures IsRun(w, first + second, allowed)
    ensures After(w, first + second, allowed) == After(After(w, first, allowed), second, allowed)
    decreases first
  {
    if first == [] {
      assert first + second == second;
    } else {
      RunsCompose(Do(w, first[0]), first[1..], second, allowed);
      assert (first + second)[1..] == first[1..] + second;
    }
  }

  lemma SingleStep(w: World, step: Step, allowed: string -> nat)
    requires Enabled(w, step) && Timely(Do(w, step), allowed)
    ensures IsRun(w, [step], allowed) && After(w, [step], allowed) == Do(w, step)
  {
    assert [step][1..] == [];
    assert IsRun(Do(w, step), [], allowed);
    assert After(w, [step], allowed) == After(Do(w, step), [step][1..], allowed);
  }

  /** `n` evaluations one millisecond apart, every renewal write lost. */
  function Coast(id: string, n: nat): seq<Step> {
    if n == 0 then [] else [Tick(1), Evaluate(id)] + Coast(id, n - 1)
  }

  ghost predicate SoleWriter(w: World, id: string) {
    && id in w.replicas && w.replicas[id].state == Leader(id) && w.replicas[id].evaluatedAt == w.now
    && w.replicas[id].config.enabled && w.replicas[id].config.identity == id
    && HeldBy(w.lease, id)
    && forall other :: other in w.replicas && other != id ==> w.replicas[other].state == Starting
  }

  /** The world a sole writer is in after coasting for `n` milliseconds. */
  function Coasted(w: World, id: string, n: nat): World
    requires id in w.replicas
  {
    w.(now := w.now + n, replicas := w.replicas[id := w.replicas[id].(evaluatedAt := w.now + n)])
  }

  lemma CoastStep(w: World, id: string, allowed: string -> nat)
    requires SoleWriter(w, id) && allowed(id) >= 1
    requires w.now + 1 <= w.lease.value.renewTime + w.replicas[id].config.renewDeadline
    ensures IsRun(w, [Tick(1), Evaluate(id)], allowed)
    ensures After(w, [Tick(1), Evaluate(id)], allowed) == Coasted(w, id, 1)
    ensures SoleWriter(Coasted(w, id, 1), id)
  {
    var w1 := Do(w, Tick(1));
    assert Do(w1, Evaluate(id)) == Coasted(w, id, 1);
    SingleStep(w, Tick(1), allowed);
    SingleStep(w1, Evaluate(id), allowed);
    RunsCompose(w, [Tick(1)], [Evaluate(id)], allowed);
    assert [Tick(1)] + [Evaluate(id)] == [Tick(1), Evaluate(id)];
  }

  lemma {:induction false} CoastRun(w: World, id: string, n: nat, allowed: string -> nat)
    requires SoleWriter(w, id) && allowed(id) >= 1
    requires w.now + n <= w.lease.value.renewTime + w.replicas[id].config.renewDeadline
    ensures IsRun(w, Coast(id, n), allowed)
    ensures SoleWriter(After(w, Coast(id, n), allowed), id)
    ensures After(w, Coast(id, n), allowed) == Coasted(w, id, n)
    decreases n
  {
    CoastedFurther(w, id, n);
    if n > 0 {
      CoastStep(w, id, allowed);
      CoastRun(Coasted(w, id, 1), id, n - 1, allowed);
      CoastOnward(w, id, n, allowed);
    }
  }

  lemma CoastedFurther(w: World, id: string, n: nat)
    requires id in w.replicas && w.replicas[id].evaluatedAt == w.now
    ensures Coasted(w, id, 0) == w
    ensures n > 0 ==> Coasted(Coasted(w, id, 1), id, n - 1) == Coasted(w, id, n)
  {
    assert Coasted(w, id, 0).replicas == w.replicas;
    if n > 0 { assert Coasted(Coasted(w, id, 1), id, n - 1).replicas == Coasted(w, id, n).replicas; }
  }

  lemma CoastOnward(w: World, id: string, n: nat, allowed: string -> nat)
    requires n > 0 && IsRun(w, [Tick(1), Evaluate(id)], allowed)
    requires IsRun(After(w, [Tick(1), Evaluate(id)], allowed), Coast(id, n - 1), allowed)
    ensures IsRun(w, Coast(id, n), allowed)
    ensures After(w, Coast(id, n), allowed)
      == After(After(w, [Tick(1), Evaluate(id)], allowed), Coast(id, n - 1), allowed)
  {
    RunsCompose(w, [Tick(1), Evaluate(id)], Coast(id, n - 1), allowed);
  }

  /**
   One millisecond more than the slack is too much: a second replica acquires the lease while the
   first still writes, with every step timely.
   */
  lemma SlackIsNeeded(w: World, a: string, b: string, allowed: string -> nat) returns (steps: seq<Step>)
    requires Initial(w) && w.lease.None?
    requires a in w.replicas && b in w.replicas && a != b && allowed(a) > Slack(w, a)
    ensures IsRun(w, steps, allowed) && !Exclusive(After(w, steps, allowed))
  {
    var first := [AcquireLease(a, 0)];
    var w1 := Do(w, AcquireLease(a, 0));
    assert SoleWriter(w1, a);
    SingleStep(w, AcquireLease(a, 0), allowed);
    var n := w.replicas[a].config.renewDeadline;
    CoastRun(w1, a, n, allowed);
    RunsCompose(w, first, Coast(a, n), allowed);
    var w2 := After(w1, Coast(a, n), allowed);

    var wait, take := Tick(Slack(w, a) + 1), AcquireLease(b, 1);
    var w3 := Do(w2, wait);
    SingleStep(w2, wait, allowed);
    RunsCompose(w, first + Coast(a, n), [wait], allowed);
    SingleStep(w3, take, allowed);
    RunsCompose(w, first + Coast(a, n) + [wait], [take], allowed);
    steps := first + Coast(a, n) + [wait] + [take];
    var w4 := Do(w3, take);
    assert w4.replicas[a].state.AllowsWrite() && w4.replicas[b].state.AllowsWrite();
  }

  /** Exclusion over all runs is equivalent to every replica re-evaluating within its slack. */
  lemma ExclusionExactly(w: World, allowed: string -> nat)
    requires Initial(w) && w.lease.None? && |w.replicas| >= 2
    ensures (forall steps | IsRun(w, steps, allowed) :: Exclusive(After(w, steps, allowed)))
            <==> WithinSlack(w, allowed)
  {
    if WithinSlack(w, allowed) {
      forall steps | IsRun(w, steps, allowed) ensures Exclusive(After(w, steps, allowed)) {
        MutualExclusion(w, steps, allowed);
      }
    } else {
      var a :| a in w.replicas && allowed(a) > Slack(w, a);
      assert |w.replicas.Keys - {a}| == |w.replicas| - 1;
      var b :| b in w.replicas.Keys - {a};
      var steps := SlackIsNeeded(w, a, b, allowed);
    }
  }

  /**
   The accepted timings alone do not bound how late a replica may evaluate: replicas that evaluate
   once per retry period exclude each other exactly when that period fits the slack.
   */
  lemma RetryPeriodExclusionExactly(w: World)
    requires Initial(w) && w.lease.None? && |w.replicas| >= 2
    ensures
      var allowed := (id: string) => if id in w.replicas then w.replicas[id].config.retryPeriod else 0;
      (forall steps | IsRun(w, steps, allowed) :: Exclusive(After(w, steps, allowed)))
      <==> forall id :: id in w.replicas ==> w.replicas[id].config.retryPeriod <= Slack(w, id)
  {
    var allowed := (id: string) => if id in w.replicas then w.replicas[id].config.retryPeriod else 0;
    ExclusionExactly(w, allowed);
    assert WithinSlack(w, allowed) <==>
      forall id :: id in w.replicas ==> w.replicas[id].config.retryPeriod <= Slack(w, id);
  }

  /** The shipped defaults fit; a configuration the checks accept need not. */
  lemma AcceptedTimingsMayOverlap()
    ensures
      var shipped := ElectionConfig(true, "a", 15000, 10000, 2000);
      CheckTimings(shipped).Ok? && shipped.retryPeriod <= shipped.leaseDuration - shipped.renewDeadline
    ensures
      var accepted := ElectionConfig(true, "a", 15000, 14000, 10000);
      var peer := accepted.(identity := "b");
      var w := World(0, None, map["a" := Replica(accepted, Starting, 0), "b" := Replica(peer, Starting, 0)]);
      var allowed := (id: string) => if id in w.replicas then w.replicas[id].config.retryPeriod else 0;
      && CheckTimings(accepted).Ok? && CheckTimings(peer).Ok?
      && exists steps :: IsRun(w, steps, allowed) && !Exclusive(After(w, steps, allowed))
  {
    var accepted := ElectionConfig(true, "a", 15000, 14000, 10000);
    var peer := accepted.(identity := "b");
    var w := World(0, None, map["a" := Replica(accepted, Starting, 0), "b" := Replica(peer, Starting, 0)]);
    var allowed := (id: string) => if id in w.replicas then w.replicas[id].config.retryPeriod else 0;
    var steps := SlackIsNeeded(w, "a", "b", allowed);
  }

  // ----- fencing is final until somebody else takes over -----

  /** The replica missed the renew deadline of a record that still names it. */
  ghost predicate FencedOut(w: World, id: string) {
    && id in w.replicas && HeldBy(w.lease, id)
    && w.replicas[id].config.enabled && w.replicas[id].config.identity == id
    && w.now > w.lease.value.renewTime + w.replicas[id].config.renewDeadline
    && !w.replicas[id].state.Leader? && !w.replicas[id].state.Relinquishing?
  }

  /** Evaluating past the renew deadline of one's own record reaches that state. */
  lemma MissedDeadlineFences(w: World, id: string)
    requires Deployed(w) && id in w.replicas && HeldBy(w.lease, id)
    requires w.now > w.lease.value.renewTime + w.replicas[id].config.renewDeadline
    ensures FencedOut(Do(w, Evaluate(id)), id)
  {
  }

  /**
   It is reached from any start: a leader whose renewals are all lost evaluates every millisecond until it is late.
   */
  lemma FenceReached(w: World, id: string, allowed: string -> nat) returns (steps: seq<Step>)
    requires Initial(w) && w.lease.None? && id in w.replicas && allowed(id) >= 1
    ensures IsRun(w, steps, allowed) && FencedOut(After(w, steps, allowed), id)
  {
    var take, n := AcquireLease(id, 0), w.replicas[id].config.renewDeadline;
    var w1 := Do(w, take);
    SingleStep(w, take, allowed);
    CoastRun(w1, id, n, allowed);
    RunsCompose(w, [take], Coast(id, n), allowed);
    var w2 := Coasted(w1, id, n);
    var w3 := Do(w2, Tick(1));
    SingleStep(w2, Tick(1), allowed);
    RunsCompose(w, [take] + Coast(id, n), [Tick(1)], allowed);
    MissedDeadlineFences(w3, id);
    SingleStep(w3, Evaluate(id), allowed);
    RunsCompose(w, [take] + Coast(id, n) + [Tick(1)], [Evaluate(id)], allowed);
    steps := [take] + Coast(id, n) + [Tick(1)] + [Evaluate(id)];
  }

  /**
   A fenced replica never writes again, through any evaluations, restarts and clock advance, until
   another replica acquires the lease: an expired record it holds itself is never claimable by it.
   */
  lemma {:induction false} FencedUntilTakenOver(w: World, steps: seq<Step>, id: string, allowed: string -> nat)
    requires Deployed(w) && FencedOut(w, id) && IsRun(w, steps, allowed)
    requires forall i :: 0 <= i < |steps| && steps[i].AcquireLease? ==> steps[i].id == id
    ensures FencedOut(After(w, steps, allowed), id)
    decreases steps
  {
    if steps != [] {
      var w' := Do(w, steps[0]);
      assert FencedOut(w', id);
      assert forall i :: 0 <= i < |steps[1..]| ==> steps[1..][i] == steps[i + 1];
      FencedUntilTakenOver(w', steps[1..], id, allowed);
    }
  }

  /** The run makes the replica a writer. */
  ghost predicate Recovers(w: World, steps: seq<Step>, id: string, allowed: string -> nat) {
    && IsRun(w, steps, allowed) && id in After(w, steps, allowed).replicas
    && After(w, steps, allowed).replicas[id].state.AllowsWrite()
  }

  lemma {:induction false} AcquirersAreReplicas(w: World, steps: seq<Step>, allowed: string -> nat)
    requires IsRun(w, steps, allowed)
    ensures forall i :: 0 <= i < |steps| && steps[i].AcquireLease? ==> steps[i].id in w.replicas
    decreases steps
  {
    if steps != [] {
      StepKeepsConfigs(w, steps[0]);
      AcquirersAreReplicas(Do(w, steps[0]), steps[1..], allowed);
      assert forall i :: 0 < i < |steps| ==> steps[i] == steps[1..][i - 1];
    }
  }

  lemma NobodyWrites(w: World, id: string)
    requires Inv(w) && FencedOut(w, id)
    ensures forall k :: k in w.replicas ==> !w.replicas[k].state.AllowsWrite()
  {
    assert forall k :: k in w.replicas && w.replicas[k].state.AllowsWrite() ==> WriterHolds(w, k) && k == id;
  }

  /** Once the record has expired, another replica can restart and take it. */
  lemma TakeOver(w: World, id: string, b: string, allowed: string -> nat) returns (steps: seq<Step>)
    requires Inv(w) && FencedOut(w, id) && b in w.replicas && b != id
    ensures IsRun(w, steps, allowed)
    ensures
      var w' := After(w, steps, allowed);
      && Inv(w') && id in w'.replicas && w'.replicas[id] == w.replicas[id]
      && b in w'.replicas && w'.replicas[b].state == Leader(b) && HeldBy(w'.lease, b)
      && w'.replicas[b].evaluatedAt == w'.now
      && forall k :: k in w'.replicas && w'.replicas[k].state.AllowsWrite() ==> k == b
  {
    var wait := Tick(w.lease.value.leaseDuration + w.lease.value.renewTime + 1);
    var back, take := Restart(b), AcquireLease(b, 1);
    NobodyWrites(w, id);
    var w1 := Do(w, wait);
    SingleStep(w, wait, allowed);
    var w2 := Do(w1, back);
    SingleStep(w1, back, allowed);
    RunsCompose(w, [wait], [back], allowed);
    SingleStep(w2, take, allowed);
    RunsCompose(w, [wait] + [back], [take], allowed);
    steps := [wait] + [back] + [take];
  }

  /** A replica that took over can step down, and the one that was fenced can then acquire. */
  lemma HandBack(w: World, id: string, b: string, allowed: string -> nat) returns (steps: seq<Step>)
    requires Inv(w) && id in w.replicas && b in w.replicas && b != id
    requires w.replicas[b].state == Leader(b) && HeldBy(w.lease, b) && w.replicas[b].evaluatedAt == w.now
    requires forall k :: k in w.replicas && w.replicas[k].state.AllowsWrite() ==> k == b
    requires !w.replicas[id].state.Leader? && !w.replicas[id].state.Relinquishing?
    ensures Recovers(w, steps, id, allowed)
  {
    var release, take := Relinquish(b, true), AcquireLease(id, 2);
    var w1 := Do(w, release);
    SingleStep(w, release, allowed);
    SingleStep(w1, take, allowed);
    RunsCompose(w, [release], [take], allowed);
    steps := [release] + [take];
  }

  /**
   Whether a fenced replica can ever write again depends on having a peer: some run makes it a writer if
   and only if there are at least two replicas. A deployment of one stays fenced for good.
   */
  lemma FencedForeverExactly(w: World, id: string, allowed: string -> nat)
    requires Inv(w) && FencedOut(w, id)
    ensures (exists steps :: Recovers(w, steps, id, allowed)) <==> |w.replicas| >= 2
  {
    assert |w.replicas.Keys - {id}| == |w.replicas| - 1;
    if |w.replicas| >= 2 {
      var b :| b in w.replicas.Keys - {id};
      var first := TakeOver(w, id, b, allowed);
      var second := HandBack(After(w, first, allowed), id, b, allowed);
      RunsCompose(w, first, second, allowed);
      assert Recovers(w, first + second, id, allowed);
    } else {
      assert forall k :: k in w.replicas ==> k == id by {
        forall k | k in w.replicas ensures k == id { assert k == id || k in w.replicas.Keys - {id}; }
      }
      forall steps | IsRun(w, steps, allowed) ensures !Recovers(w, steps, id, allowed) {
        AcquirersAreReplicas(w, steps, allowed);
        FencedUntilTakenOver(w, steps, id, allowed);
      }
    }
  }
}
