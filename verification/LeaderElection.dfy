/** One replica's view of the shared leader lease (`LeadershipCoordinator`). */
module LeaderElection {
  import opened Basics

  /** Timings are in milliseconds. */
  datatype ElectionConfig = ElectionConfig(
    enabled: bool, identity: string, leaseDuration: nat, renewDeadline: nat, retryPeriod: nat)

  datatype TimingError = RenewDeadlineNotBelowLease | RetryPeriodExceedsRenewDeadline

  /** The timing checks made when the controller reads its configuration. */
  function CheckTimings(config: ElectionConfig): Result<ElectionConfig, TimingError> {
    if config.renewDeadline >= config.leaseDuration then Err(RenewDeadlineNotBelowLease)
    else if config.retryPeriod > config.renewDeadline then Err(RetryPeriodExceedsRenewDeadline)
    else Ok(config)
  }

  datatype LossCause =
    | DeadlineExceeded(elapsed: nat)
    | OwnershipTransferred(holder: Option<string>)
    | MissingOrExpired

  datatype LeadershipState =
    | Starting
    | Follower(leader: Option<string>)
    | Leader(identity: string)
    | Relinquishing(identity: string)
    | Lost(leader: Option<string>, cause: LossCause)
  {
    predicate AllowsWrite() { Leader? }
  }

  datatype LeaseRecord = LeaseRecord(
    holder: Option<string>, renewTime: nat, leaseDuration: nat, transitions: nat)
  {
    predicate ExpiredAt(now: nat) {
      holder.None? || SatSub(now, renewTime) > leaseDuration
    }
  }

  datatype LeaseAction = Acquire | Renew | Release | Standby | Fence

  predicate HeldBy(lease: Option<LeaseRecord>, id: string) {
    lease.Some? && lease.value.holder == Some(id)
  }

  function Evaluated(config: ElectionConfig, state: LeadershipState, lease: Option<LeaseRecord>, now: nat)
    : (LeadershipState, LeaseAction)
  {
    if !config.enabled then
      (Leader(config.identity), Standby)
    else if HeldBy(lease, config.identity) then
      var elapsed := SatSub(now, lease.value.renewTime);
      if elapsed > config.renewDeadline then
        (Lost(Some(config.identity), DeadlineExceeded(elapsed)), Fence)
      else
        (Leader(config.identity), Renew)
    else if lease.Some? && !lease.value.ExpiredAt(now) then
      if state.Leader? then
        (Lost(Some(config.identity), OwnershipTransferred(lease.value.holder)), Fence)
      else
        (Follower(lease.value.holder), Standby)
    else
      match state
      case Leader(_) => (Lost(Some(config.identity), MissingOrExpired), Fence)
      case Relinquishing(_) => (Follower(None), Standby)
      case _ => (Starting, Acquire)
  }

  function Relinquished(config: ElectionConfig, state: LeadershipState): (LeadershipState, LeaseAction) {
    if !config.enabled then (state, Standby)
    else if state.Leader? || state.Relinquishing? then (Relinquishing(config.identity), Release)
    else (state, Standby)
  }

  class LeadershipCoordinator {
    const config: ElectionConfig
    var state: LeadershipState

    constructor (config: ElectionConfig)
      ensures this.config == config
      ensures state == if config.enabled then Starting else Leader(config.identity)
    {
      this.config := config;
      state := if config.enabled then Starting else Leader(config.identity);
    }

    method Evaluate(lease: Option<LeaseRecord>, now: nat) returns (action: LeaseAction)
      modifies this
      ensures (state, action) == Evaluated(config, old(state), lease, now)
    {
      if !config.enabled {
        state := Leader(config.identity);
        return Standby;
      }
      if lease.Some? && lease.value.holder == Some(config.identity) {
        var elapsed := SatSub(now, lease.value.renewTime);
        if elapsed > config.renewDeadline {
          state := Lost(Some(config.identity), DeadlineExceeded(elapsed));
          return Fence;
        }
        state := Leader(config.identity);
        return Renew;
      }
      if lease.Some? && !lease.value.ExpiredAt(now) {
        if state.Leader? {
          state := Lost(Some(config.identity), OwnershipTransferred(lease.value.holder));
          return Fence;
        }
        state := Follower(lease.value.holder);
        return Standby;
      }
      match state {
        case Leader(_) =>
          state := Lost(Some(config.identity), MissingOrExpired);
          return Fence;
        case Relinquishing(_) =>
          state := Follower(None);
          return Standby;
        case _ =>
          state := Starting;
          return Acquire;
      }
    }

    method RecordAcquired()
      modifies this
      ensures state == Leader(config.identity)
    {
      state := Leader(config.identity);
    }

    method BeginRelinquish() returns (action: LeaseAction)
      modifies this
      ensures (state, action) == Relinquished(config, old(state))
    {
      if !config.enabled {
        return Standby;
      }
      match state {
        case Leader(_) =>
          state := Relinquishing(config.identity);
          return Release;
        case Relinquishing(_) =>
          state := Relinquishing(config.identity);
          return Release;
        case _ =>
          return Standby;
      }
    }
  }

  /**
   When an evaluation yields each action, said without the branches: a replica renews exactly the
   record it holds within its own deadline, and asks to acquire exactly when the lease is claimable
   and it neither leads nor is stepping down. It leads afterwards exactly when it renews.
   */
  lemma EvaluationMeaning(config: ElectionConfig, state: LeadershipState, lease: Option<LeaseRecord>, now: nat)
    requires config.enabled
    ensures
      var (next, action) := Evaluated(config, state, lease, now);
      var held := HeldBy(lease, config.identity);
      var inTime := held && now <= lease.value.renewTime + config.renewDeadline;
      var claimable := lease.None? || lease.value.holder.None?
                       || (!held && now > lease.value.renewTime + lease.value.leaseDuration);
      && (action == Renew <==> inTime)
      && (action == Acquire <==> claimable && !state.Leader? && !state.Relinquishing?)
      && (action == Fence <==> if held then !inTime else state.Leader?)
      && action != Release
      && (next.AllowsWrite() <==> action == Renew)
      && (action == Fence <==> next.Lost?)
      && (action == Acquire <==> next.Starting?)
      && (next.Follower? ==> next.leader == if claimable then None else lease.value.holder)
      && (next.Leader? ==> next.identity == config.identity)
  {
  }

  /** A replica fenced on a record it holds is fenced by every later evaluation of that record. */
  lemma FenceIsSticky(config: ElectionConfig, before: LeadershipState, later: LeadershipState,
                      lease: Option<LeaseRecord>, now: nat, afterwards: nat)
    requires config.enabled && HeldBy(lease, config.identity) && now <= afterwards
    requires Evaluated(config, before, lease, now).1 == Fence
    ensures Evaluated(config, later, lease, afterwards).1 == Fence
    ensures !Evaluated(config, later, lease, afterwards).0.AllowsWrite()
  {
  }
}
