/** Fanning a cache invalidation out to peers, with bounded retries and capped exponential backoff. */
module CacheTransport {
  import opened Basics

  const DEFAULT_MAX_FAILURE_DETAILS: nat := 8

  /** Durations in nanoseconds, up to the largest number of whole seconds and nanoseconds. */
  const DURATION_MAX: nat := (U64_MAX + 1) * 1_000_000_000 - 1

  type Duration = d: nat | d <= DURATION_MAX

  datatype RetryPolicy = RetryPolicy(maxAttempts: nat, initialBackoff: Duration, maxBackoff: Duration)

  const DEFAULT_RETRY: RetryPolicy := RetryPolicy(3, 25_000_000, 250_000_000)

  /** Normalising keeps the first backoff, and leaves a policy that can make an attempt and a wait. */
  function Normalized(p: RetryPolicy): (r: RetryPolicy)
    ensures r.maxAttempts >= 1 && r.maxBackoff >= r.initialBackoff == p.initialBackoff
    ensures p.maxAttempts >= 1 && p.maxBackoff >= p.initialBackoff ==> r == p
  {
    RetryPolicy(Max(p.maxAttempts, 1), p.initialBackoff, Max(p.maxBackoff, p.initialBackoff))
  }

  function Pow2(n: nat): (r: nat)
    ensures r >= 1
  {
    if n == 0 then 1 else 2 * Pow2(n - 1)
  }

  /** `Duration::checked_mul`. */
  function CheckedMul(d: Duration, factor: nat): Option<Duration> {
    if Times(d, factor) > DURATION_MAX then None else Some(Times(d, factor))
  }

  function Times(a: nat, b: nat): nat {
    a * b
  }

  /** The wait after failed attempt number `attempts`, as computed. */
  function Backoff(p: RetryPolicy, attempts: nat): Duration {
    var k := SatSub(attempts, 1);
    var shift := if k <= U32_MAX then k else U32_MAX;
    var product := CheckedMul(p.initialBackoff, Pow2(Min(shift, 20)));
    Min(match product { case Some(d) => d case None => p.maxBackoff }, p.maxBackoff)
  }

  lemma {:induction false} Pow2Monotone(a: nat, b: nat)
    requires a <= b
    ensures Pow2(a) <= Pow2(b)
  {
    if a < b { Pow2Monotone(a, b - 1); }
  }

  /** The initial backoff doubled `min(k, 20)` times over the integers, then capped. */
  function Doubled(p: RetryPolicy, k: nat): nat {
    Min(Times(p.initialBackoff, Pow2(Min(k, 20))), p.maxBackoff)
  }

  /** The wait after attempt `k + 1` is exactly that, also where the multiplication overflows. */
  lemma BackoffExact(p: RetryPolicy, k: nat)
    ensures Backoff(p, k + 1) == Doubled(p, k)
  {
    var shift := if k <= U32_MAX then k else U32_MAX;
    assert Min(shift, 20) == Min(k, 20);
  }

  lemma ScaledMonotone(x: nat, a: nat, b: nat, cap: nat)
    requires a <= b
    ensures Min(Times(x, a), cap) <= Min(Times(x, b), cap)
  {
    assert x * a <= x * b;
  }

  /** So waits never decrease and never exceed the cap. */
  lemma BackoffGrows(p: RetryPolicy, j: nat, k: nat)
    requires j <= k
    ensures Doubled(p, j) <= Doubled(p, k) <= p.maxBackoff
    ensures Doubled(p, 0) == Min(p.initialBackoff, p.maxBackoff)
  {
    Pow2Monotone(Min(j, 20), Min(k, 20));
    ScaledMonotone(p.initialBackoff, Pow2(Min(j, 20)), Pow2(Min(k, 20)), p.maxBackoff);
    assert Times(p.initialBackoff, Pow2(0)) == p.initialBackoff;
  }

  // ----- delivering to one peer -----

  datatype Reply = Reply(applied: bool, purged: nat)

  /** What peer number `i` answers to attempt number `a`. */
  type Peers = (nat, nat) -> Result<Reply, string>

  /** The attempt that settles delivery to peer `i`, trying from attempt `a` on. */
  function Settled(peers: Peers, i: nat, maxAttempts: nat, a: nat): (n: nat)
    ensures a <= n && (n > a ==> n <= maxAttempts)
    ensures peers(i, n).Ok? || n >= maxAttempts
    ensures forall b :: a <= b < n ==> peers(i, b).Err?
    decreases maxAttempts - a
  {
    if peers(i, a).Ok? || a >= maxAttempts then a else Settled(peers, i, maxAttempts, a + 1)
  }

  /**
   Retries until a success or the last attempt. Every attempt before the last failed, and each was
   followed by its backoff.
   */
  method DeliverWithRetry(peers: Peers, i: nat, p: RetryPolicy)
    returns (outcome: Result<Reply, string>, attempts: nat, waits: seq<Duration>)
    ensures attempts == Settled(peers, i, p.maxAttempts, 1) && outcome == peers(i, attempts)
    ensures |waits| == attempts - 1 && forall j :: 0 <= j < |waits| ==> waits[j] == Backoff(p, j + 1)
  {
    attempts, waits := 0, [];
    while true
      invariant |waits| == attempts && forall j :: 0 <= j < |waits| ==> waits[j] == Backoff(p, j + 1)
      invariant Settled(peers, i, p.maxAttempts, 1) == Settled(peers, i, p.maxAttempts, attempts + 1)
      decreases p.maxAttempts - attempts
    {
      attempts := attempts + 1;
      outcome := peers(i, attempts);
      if outcome.Ok? || attempts >= p.maxAttempts {
        return;
      }
      waits := waits + [Backoff(p, attempts)];
    }
  }

  // ----- fan-out -----

  datatype Delivery = Applied | Duplicate | Undelivered

  datatype DeliveryRecord = DeliveryRecord(node: string, result: Delivery, attempts: nat, purged: nat,
                                           detail: Option<string>)

  datatype PublishResult = PublishResult(
    subscribers: nat, applied: nat, duplicates: nat, successes: nat, failures: nat, purged: nat,
    failedTargets: seq<string>)

  datatype FanoutReport = FanoutReport(
    eventId: string, degraded: bool, successes: nat, failures: nat, duplicates: nat, subscribers: nat, maxAttempts: nat,
    records: seq<DeliveryRecord>)

  function RecordFor(node: string, outcome: Result<Reply, string>, attempts: nat): DeliveryRecord {
    match outcome
    case Ok(reply) =>
      if reply.applied then DeliveryRecord(node, Applied, attempts, reply.purged, None)
      else DeliveryRecord(node, Duplicate, attempts, 0, None)
    case Err(error) => DeliveryRecord(node, Undelivered, attempts, 0, Some(error))
  }

  function Records(peers: Peers, nodes: seq<string>, maxAttempts: nat): (records: seq<DeliveryRecord>)
    ensures |records| == |nodes|
    ensures forall i :: 0 <= i < |nodes| ==>
      var n := Settled(peers, i, maxAttempts, 1);
      records[i] == RecordFor(nodes[i], peers(i, n), n)
  {
    seq(|nodes|, i requires 0 <= i < |nodes| =>
      var n := Settled(peers, i, maxAttempts, 1);
      RecordFor(nodes[i], peers(i, n), n))
  }

  /** How a failed peer is listed. */
  function Listed(r: DeliveryRecord): string {
    r.node + ":" + match r.detail case Some(d) => d case None => ""
  }

  /** The running totals after one more record. */
  function Added(t: PublishResult, r: DeliveryRecord, maxDetails: nat): PublishResult {
    var s := t.(subscribers := t.subscribers + 1);
    match r.result
    case Applied => s.(applied := t.applied + 1, successes := t.successes + 1, purged := t.purged + r.purged)
    case Duplicate => s.(duplicates := t.duplicates + 1, successes := t.successes + 1)
    case Undelivered =>
      s.(failures := t.failures + 1,
         failedTargets := if |t.failedTargets| < maxDetails then t.failedTargets + [Listed(r)] else t.failedTargets)
  }

  function Totals(records: seq<DeliveryRecord>, maxDetails: nat): PublishResult {
    if records == [] then PublishResult(0, 0, 0, 0, 0, 0, [])
    else Added(Totals(records[..|records| - 1], maxDetails), records[|records| - 1], maxDetails)
  }

  class HttpCachePeerTransport {
    const nodes: seq<string>
    var maxFailureDetails: nat
    var retryPolicy: RetryPolicy
    var lastReport: Option<FanoutReport>

    /** The retry policy is normalised and at least one failure is listed. */
    ghost predicate Valid()
      reads this
    {
      retryPolicy == Normalized(retryPolicy) && maxFailureDetails >= 1
    }

    constructor (nodes: seq<string>)
      ensures Valid() && this.nodes == nodes && maxFailureDetails == DEFAULT_MAX_FAILURE_DETAILS
      ensures retryPolicy == DEFAULT_RETRY && lastReport == None
    {
      this.nodes, maxFailureDetails, retryPolicy, lastReport := nodes, DEFAULT_MAX_FAILURE_DETAILS, DEFAULT_RETRY, None;
    }

    method WithRetryPolicy(p: RetryPolicy)
      requires Valid()
      modifies this`retryPolicy
      ensures Valid() && retryPolicy == Normalized(p)
    {
      retryPolicy := Normalized(p);
    }

    method WithMaxFailureDetails(n: nat)
      requires Valid()
      modifies this`maxFailureDetails
      ensures Valid() && maxFailureDetails == Max(n, 1)
    {
      maxFailureDetails := Max(n, 1);
    }

    /** An invalid event is refused before any peer is contacted and leaves the last report alone. */
    method Publish(peers: Peers, eventId: string, eventValid: bool) returns (r: Option<PublishResult>)
      requires Valid()
      modifies this`lastReport
      ensures Valid()
      ensures r.Some? <==> eventValid
      ensures r.None? ==> lastReport == old(lastReport)
      ensures r.Some? ==>
        var records := Records(peers, nodes, retryPolicy.maxAttempts);
        var t := Totals(records, maxFailureDetails);
        && r.value == t
        && lastReport == Some(FanoutReport(eventId, t.failures > 0, t.successes, t.failures, t.duplicates,
                                           t.subscribers, retryPolicy.maxAttempts, records))
        && Conserved(peers, nodes, retryPolicy.maxAttempts, maxFailureDetails, records, t)
    {
      if !eventValid {
        return None;
      }
      var t, records := FanOut(peers, nodes, retryPolicy, maxFailureDetails);
      lastReport := Some(FanoutReport(eventId, t.failures > 0, t.successes, t.failures, t.duplicates, t.subscribers,
                                      retryPolicy.maxAttempts, records));
      FanOutConserves(peers, nodes, retryPolicy, maxFailureDetails);
      return Some(t);
    }
  }

  method FanOut(peers: Peers, nodes: seq<string>, policy: RetryPolicy, maxDetails: nat)
    returns (t: PublishResult, records: seq<DeliveryRecord>)
    ensures records == Records(peers, nodes, policy.maxAttempts) && t == Totals(records, maxDetails)
  {
    t, records := PublishResult(0, 0, 0, 0, 0, 0, []), [];
    for i := 0 to |nodes|
      invariant records == Records(peers, nodes, policy.maxAttempts)[..i]
      invariant t == Totals(records, maxDetails)
    {
      var outcome, attempts, _ := DeliverWithRetry(peers, i, policy);
      var record: DeliveryRecord;
      t, record := Count(t, nodes[i], outcome, attempts, maxDetails);
      assert (records + [record])[..i] == records;
      records := records + [record];
    }
  }

  /** Counts and records one peer's outcome. */
  method Count(before: PublishResult, node: string, outcome: Result<Reply, string>, attempts: nat, maxDetails: nat)
    returns (t: PublishResult, record: DeliveryRecord)
    ensures record == RecordFor(node, outcome, attempts) && t == Added(before, record, maxDetails)
  {
    t := before.(subscribers := before.subscribers + 1);
    match outcome {
      case Ok(reply) =>
        if reply.applied {
          t := t.(applied := t.applied + 1, successes := t.successes + 1, purged := t.purged + reply.purged);
          record := DeliveryRecord(node, Applied, attempts, reply.purged, None);
        } else {
          t := t.(duplicates := t.duplicates + 1, successes := t.successes + 1);
          record := DeliveryRecord(node, Duplicate, attempts, 0, None);
        }
      case Err(error) =>
        t := t.(failures := t.failures + 1);
        if |t.failedTargets| < maxDetails {
          t := t.(failedTargets := t.failedTargets + [node + ":" + error]);
        }
        record := DeliveryRecord(node, Undelivered, attempts, 0, Some(error));
    }
  }

  // ----- conservation -----

  function CountOf(records: seq<DeliveryRecord>, result: Delivery): nat {
    if records == [] then 0
    else CountOf(records[..|records| - 1], result) + if records[|records| - 1].result == result then 1 else 0
  }

  function PurgedSum(records: seq<DeliveryRecord>): nat {
    if records == [] then 0 else PurgedSum(records[..|records| - 1]) + records[|records| - 1].purged
  }

  /** The failed peers, in order. */
  function FailedTargets(records: seq<DeliveryRecord>): seq<string> {
    if records == [] then []
    else
      var last := records[|records| - 1];
      FailedTargets(records[..|records| - 1]) + if last.result == Undelivered then [Listed(last)] else []
  }

  /** Only applied deliveries purge. */
  predicate WellRecorded(records: seq<DeliveryRecord>) {
    forall i :: 0 <= i < |records| ==> records[i].result != Applied ==> records[i].purged == 0
  }

  /**
   The totals are those of the records: every peer succeeds or fails once, a success is an application
   or a duplicate, and the purged entries add up.
   */
  lemma {:induction false} TotalsBalance(records: seq<DeliveryRecord>, maxDetails: nat)
    requires WellRecorded(records)
    ensures
      var t := Totals(records, maxDetails);
      && t.subscribers == |records| == t.successes + t.failures && t.successes == t.applied + t.duplicates
      && t.applied == CountOf(records, Applied) && t.duplicates == CountOf(records, Duplicate)
      && t.failures == CountOf(records, Undelivered) && t.purged == PurgedSum(records)
    decreases |records|
  {
    if records != [] { TotalsBalance(records[..|records| - 1], maxDetails); }
  }

  /** The failures listed are the first ones, as many as fit. */
  lemma {:induction false} FailuresListed(records: seq<DeliveryRecord>, maxDetails: nat)
    ensures
      var t, failed := Totals(records, maxDetails), FailedTargets(records);
      t.failures == |failed| && t.failedTargets == failed[..Min(|failed|, maxDetails)]
    decreases |records|
  {
    if records != [] {
      var front, last := records[..|records| - 1], records[|records| - 1];
      FailuresListed(front, maxDetails);
      ListedPrefix(FailedTargets(front), Listed(last), maxDetails);
    }
  }

  lemma ListedPrefix(failed: seq<string>, x: string, maxDetails: nat)
    ensures
      var kept := failed[..Min(|failed|, maxDetails)];
      (if |kept| < maxDetails then kept + [x] else kept) == (failed + [x])[..Min(|failed| + 1, maxDetails)]
  {
  }

  /**
   The totals balance, every peer is tried between once and the most attempts allowed, and it is recorded as
   failed exactly when all of those attempts failed.
   */
  ghost predicate Conserved(peers: Peers, nodes: seq<string>, maxAttempts: nat, maxDetails: nat,
                            records: seq<DeliveryRecord>, t: PublishResult)
  {
    && t.subscribers == |nodes| == |records| == t.successes + t.failures && t.successes == t.applied + t.duplicates
    && t.purged == PurgedSum(records) && |t.failedTargets| == Min(t.failures, maxDetails)
    && t.failedTargets <= FailedTargets(records)
    && forall i :: 0 <= i < |nodes| ==> Explained(peers, nodes[i], maxAttempts, records[i], i)
  }

  ghost predicate Explained(peers: Peers, node: string, maxAttempts: nat, record: DeliveryRecord, i: nat) {
    && record.node == node && 1 <= record.attempts <= maxAttempts
    && (record.result == Undelivered <==> forall a :: 1 <= a <= maxAttempts ==> peers(i, a).Err?)
  }

  lemma RecordExplained(peers: Peers, node: string, maxAttempts: nat, i: nat)
    requires maxAttempts >= 1
    ensures
      var n := Settled(peers, i, maxAttempts, 1);
      Explained(peers, node, maxAttempts, RecordFor(node, peers(i, n), n), i)
  {
  }

  /** A fan-out under a normalised policy conserves, for any peers. */
  lemma FanOutConserves(peers: Peers, nodes: seq<string>, policy: RetryPolicy, maxDetails: nat)
    requires policy == Normalized(policy)
    ensures
      var records := Records(peers, nodes, policy.maxAttempts);
      Conserved(peers, nodes, policy.maxAttempts, maxDetails, records, Totals(records, maxDetails))
  {
    var records := Records(peers, nodes, policy.maxAttempts);
    TotalsBalance(records, maxDetails);
    FailuresListed(records, maxDetails);
    forall i | 0 <= i < |nodes| ensures Explained(peers, nodes[i], policy.maxAttempts, records[i], i) {
      RecordExplained(peers, nodes[i], policy.maxAttempts, i);
    }
  }
}
