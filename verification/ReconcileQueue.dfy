/**
 The coalescing delay queue of pending reconciles and the runtime loop that drains it while the
 replica leads. Reconcile results come from the pipeline and are parameters here.
 */
module ReconcileQueue {
  import opened Basics
  import opened Ordering
  import opened LeaderElection
  import EndpointSlices

  const DEFAULT_MAX_REQUEUE_DELAY_MS: nat := 30000

  /** What is to be reconciled; `resources` is never inspected by the queue. */
  datatype Work = Work(key: Key, resources: EndpointSlices.Resources, generation: nat, actor: Option<string>)

  datatype Entry = Entry(work: Work, notBefore: nat)

  datatype Outcome = Reconciled | TranslationError | SnapshotError | BackendError

  /** Entries are stored under the key of their own work. */
  type Queue = map<Key, Entry>

  ghost predicate Keyed(q: Queue) {
    forall k :: k in q ==> q[k].work.key == k
  }

  function Enqueued(q: Queue, e: Entry): Queue {
    var k := e.work.key;
    if k in q then
      q[k := Entry(if e.work.generation >= q[k].work.generation then e.work else q[k].work,
                   Min(q[k].notBefore, e.notBefore))]
    else
      q[k := e]
  }

  predicate IsDue(q: Queue, k: Key, now: nat) {
    k in q && q[k].notBefore <= now
  }

  function DueSet(q: Queue, now: nat): set<Key> {
    set k | k in q && IsDue(q, k, now)
  }

  /** The due keys in iteration order. */
  function DueKeys(q: Queue, now: nat): (ks: seq<Key>)
    ensures forall k :: k in ks <==> IsDue(q, k, now)
    ensures forall i :: 0 <= i < |ks| ==> IsDue(q, ks[i], now)
    ensures NoDuplicates(ks)
  {
    SortedKeys(DueSet(q, now))
  }

  function Picked(q: Queue, ks: seq<Key>): (es: seq<Entry>)
    requires forall i :: 0 <= i < |ks| ==> ks[i] in q
    ensures |es| == |ks| && forall i :: 0 <= i < |ks| ==> es[i] == q[ks[i]]
  {
    seq(|ks|, i requires 0 <= i < |ks| => q[ks[i]])
  }

  function RequeueTime(now: nat, maxRequeueDelay: nat): nat {
    SatAdd(now, Min(DEFAULT_MAX_REQUEUE_DELAY_MS, maxRequeueDelay))
  }

  /** The queue after each popped entry has been reconciled: backend failures go back in. */
  function Settled(q: Queue, popped: seq<Entry>, results: seq<Outcome>, now: nat, maxDelay: nat): Queue
    requires |popped| == |results|
  {
    if popped == [] then q
    else
      var last := |popped| - 1;
      var before := Settled(q, popped[..last], results[..last], now, maxDelay);
      if results[last] == BackendError
      then Enqueued(before, popped[last].(notBefore := RequeueTime(now, maxDelay)))
      else before
  }

  /** One drive by the leader. */
  function Driven(q: Queue, results: seq<Outcome>, now: nat, maxDelay: nat): Queue
    requires |results| == |DueKeys(q, now)|
  {
    var ks := DueKeys(q, now);
    Settled(q - DueSet(q, now), Picked(q, ks), results, now, maxDelay)
  }

  class ReconcileQueue {
    var entries: Queue

    constructor ()
      ensures entries == map[]
    {
      entries := map[];
    }

    method Enqueue(entry: Entry)
      modifies this
      ensures entries == Enqueued(old(entries), entry)
    {
      var key := entry.work.key;
      if key in entries {
        var existing := entries[key];
        if entry.work.generation >= existing.work.generation {
          existing := existing.(work := entry.work);
        }
        existing := existing.(notBefore := Min(existing.notBefore, entry.notBefore));
        entries := entries[key := existing];
      } else {
        entries := entries[key := entry];
      }
    }

    method ScheduleRequeue(work: Work, now: nat, requestedDelay: nat, maxRequeueDelay: nat)
      modifies this
      ensures entries == Enqueued(old(entries), Entry(work, SatAdd(now, Min(requestedDelay, maxRequeueDelay))))
    {
      Enqueue(Entry(work, SatAdd(now, Min(requestedDelay, maxRequeueDelay))));
    }

    method PopDue(now: nat) returns (due: seq<Entry>)
      modifies this
      ensures due == Picked(old(entries), DueKeys(old(entries), now))
      ensures entries == old(entries) - DueSet(old(entries), now)
    {
      var keys := DueKeys(entries, now);
      var rest;
      rest, due := RemoveEach(entries, keys);
      assert rest == entries - DueSet(entries, now);
      entries := rest;
    }
  }

  /** Removes the given keys one after another, collecting the entries removed. */
  method RemoveEach(q: Queue, keys: seq<Key>) returns (rest: Queue, removed: seq<Entry>)
    requires NoDuplicates(keys) && forall i :: 0 <= i < |keys| ==> keys[i] in q
    ensures removed == Picked(q, keys)
    ensures forall k :: k in rest <==> k in q && k !in keys
    ensures forall k :: k in rest ==> rest[k] == q[k]
  {
    rest, removed := q, [];
    for i := 0 to |keys|
      invariant forall k :: k in rest <==> k in q && k !in keys[..i]
      invariant forall k :: k in rest ==> rest[k] == q[k]
      invariant removed == Picked(q, keys[..i])
    {
      removed := removed + [rest[keys[i]]];
      rest := rest - {keys[i]};
    }
    assert keys[..|keys|] == keys;
  }

  lemma SettledStep(q: Queue, due: seq<Entry>, results: seq<Outcome>, i: nat, result: Outcome, now: nat, maxDelay: nat)
    requires i < |due| && |results| == i
    ensures
      var before := Settled(q, due[..i], results, now, maxDelay);
      Settled(q, due[..i + 1], results + [result], now, maxDelay)
      == if result == BackendError then Enqueued(before, due[i].(notBefore := RequeueTime(now, maxDelay))) else before
  {
    assert due[..i + 1][..i] == due[..i] && (results + [result])[..i] == results;
  }

  class ControllerRuntime {
    const reconcileDebounce: nat
    const maxRequeueDelay: nat
    const queue: ReconcileQueue
    const leadership: LeadershipCoordinator

    constructor (election: ElectionConfig, reconcileDebounce: nat, maxRequeueDelay: nat)
      ensures fresh(queue) && fresh(leadership) && queue.entries == map[]
      ensures this.reconcileDebounce == reconcileDebounce && this.maxRequeueDelay == maxRequeueDelay
    {
      this.reconcileDebounce, this.maxRequeueDelay := reconcileDebounce, maxRequeueDelay;
      queue := new ReconcileQueue();
      leadership := new LeadershipCoordinator(election);
    }

    method SubmitReconcile(work: Work, now: nat)
      modifies queue
      ensures queue.entries == Enqueued(old(queue.entries), Entry(work, SatAdd(now, reconcileDebounce)))
    {
      queue.Enqueue(Entry(work, SatAdd(now, reconcileDebounce)));
    }

    /** `pipeline(i)` is the outcome of the drive's `i`-th reconcile. */
    method DriveOnce(now: nat, pipeline: nat -> Outcome) returns (results: seq<Outcome>)
      modifies queue
      ensures !leadership.state.AllowsWrite() ==> results == [] && queue.entries == old(queue.entries)
      ensures leadership.state.AllowsWrite() ==>
        && |results| == |DueKeys(old(queue.entries), now)|
        && (forall i :: 0 <= i < |results| ==> results[i] == pipeline(i))
        && queue.entries == Driven(old(queue.entries), results, now, maxRequeueDelay)
    {
      if !leadership.state.AllowsWrite() {
        return [];
      }
      var due := queue.PopDue(now);
      results := ReconcileEach(due, now, pipeline);
    }

    /** Runs the pipeline over the popped entries, requeueing backend failures as they occur. */
    method ReconcileEach(due: seq<Entry>, now: nat, pipeline: nat -> Outcome) returns (results: seq<Outcome>)
      modifies queue
      ensures |results| == |due| && forall i :: 0 <= i < |due| ==> results[i] == pipeline(i)
      ensures queue.entries == Settled(old(queue.entries), due, results, now, maxRequeueDelay)
    {
      results := [];
      ghost var start := queue.entries;
      for i := 0 to |due|
        invariant |results| == i && forall j :: 0 <= j < i ==> results[j] == pipeline(j)
        invariant queue.entries == Settled(start, due[..i], results, now, maxRequeueDelay)
      {
        var result := pipeline(i);
        if result == BackendError {
          queue.ScheduleRequeue(due[i].work, now, DEFAULT_MAX_REQUEUE_DELAY_MS, maxRequeueDelay);
        }
        SettledStep(start, due, results, i, result, now, maxRequeueDelay);
        results := results + [result];
      }
      assert due[..|due|] == due;
    }
  }

  // ----- what one drive does to every key -----

  ghost predicate RequeuedAt(q: Queue, ks: seq<Key>, results: seq<Outcome>, i: nat, now: nat, maxDelay: nat, q': Queue)
    requires i < |ks| == |results| && ks[i] in q
  {
    if results[i] == BackendError
    then ks[i] in q' && q'[ks[i]] == q[ks[i]].(notBefore := RequeueTime(now, maxDelay))
    else ks[i] !in q'
  }

  /** Backend failures are in `q'` at `time`, other popped entries are not, and the rest of `base` is. */
  ghost predicate SettlesTo(base: Queue, popped: seq<Entry>, results: seq<Outcome>, time: nat, q': Queue)
    requires |popped| == |results|
  {
    && (forall i :: 0 <= i < |popped| ==>
          if results[i] == BackendError
          then popped[i].work.key in q' && q'[popped[i].work.key] == popped[i].(notBefore := time)
          else popped[i].work.key !in q')
    && (forall k :: !Mentions(popped, k) ==> (k in q' <==> k in base) && (k in base ==> q'[k] == base[k]))
  }

  lemma SettlesOneMore(base: Queue, front: seq<Entry>, done: seq<Outcome>, time: nat, before: Queue, e: Entry,
                       result: Outcome)
    requires |front| == |done| && SettlesTo(base, front, done, time, before)
    requires !Mentions(front, e.work.key) && e.work.key !in base
    ensures SettlesTo(base, front + [e], done + [result], time,
                      if result == BackendError then Enqueued(before, e.(notBefore := time)) else before)
  {
    assert forall i :: 0 <= i < |front| ==> (front + [e])[i] == front[i] && front[i].work.key != e.work.key;
    forall k | !Mentions(front + [e], k) ensures !Mentions(front, k) && k != e.work.key {
      assert (front + [e])[|front|].work.key != k;
    }
  }

  lemma {:induction false} SettleExact(base: Queue, popped: seq<Entry>, results: seq<Outcome>, now: nat, maxDelay: nat)
    requires |popped| == |results|
    requires forall i, j :: 0 <= i < j < |popped| ==> popped[i].work.key != popped[j].work.key
    requires forall i :: 0 <= i < |popped| ==> popped[i].work.key !in base
    ensures SettlesTo(base, popped, results, RequeueTime(now, maxDelay), Settled(base, popped, results, now, maxDelay))
    decreases |popped|
  {
    if popped != [] {
      var last := |popped| - 1;
      var front, done := popped[..last], results[..last];
      SettleExact(base, front, done, now, maxDelay);
      SettlesOneMore(base, front, done, RequeueTime(now, maxDelay), Settled(base, front, done, now, maxDelay),
                     popped[last], results[last]);
      assert popped == front + [popped[last]] && results == done + [results[last]];
    }
  }

  /**
   A drive leaves every entry that is not due untouched, drops every due entry whose reconcile did
   not fail in the backend, and puts each backend failure back unchanged but for its time, which is
   exactly the current time plus the bounded delay.
   */
  lemma DriveExact(q: Queue, results: seq<Outcome>, now: nat, maxDelay: nat)
    requires Keyed(q) && |results| == |DueKeys(q, now)|
    ensures
      var ks, q' := DueKeys(q, now), Driven(q, results, now, maxDelay);
      && (forall i :: 0 <= i < |ks| ==> RequeuedAt(q, ks, results, i, now, maxDelay, q'))
      && (forall k :: !IsDue(q, k, now) ==> (k in q' <==> k in q) && (k in q ==> q'[k] == q[k]))
  {
    var ks := DueKeys(q, now);
    var base, popped := q - DueSet(q, now), Picked(q, ks);
    assert forall i :: 0 <= i < |ks| ==> popped[i].work.key == ks[i];
    SettleExact(base, popped, results, now, maxDelay);
    assert forall k :: k !in ks ==> !Mentions(popped, k);
  }

  // ----- coalescing -----

  function EnqueuedAll(q: Queue, es: seq<Entry>): Queue {
    if es == [] then q else Enqueued(EnqueuedAll(q, es[..|es| - 1]), es[|es| - 1])
  }

  /** `at` is the last enqueue for `k` that no other one for `k` outranks by generation. */
  ghost predicate Winner(es: seq<Entry>, k: Key, at: nat) {
    && at < |es| && es[at].work.key == k
    && (forall j :: 0 <= j < |es| && es[j].work.key == k ==> es[j].work.generation <= es[at].work.generation)
    && (forall j :: at < j < |es| && es[j].work.key == k ==> es[j].work.generation < es[at].work.generation)
  }

  ghost predicate EarliestFor(es: seq<Entry>, k: Key, time: nat) {
    && (exists j :: 0 <= j < |es| && es[j].work.key == k && es[j].notBefore == time)
    && (forall j :: 0 <= j < |es| && es[j].work.key == k ==> time <= es[j].notBefore)
  }

  ghost predicate Coalesced(q: Queue, es: seq<Entry>, k: Key) {
    k in q && EarliestFor(es, k, q[k].notBefore) && exists at: nat :: Winner(es, k, at) && q[k].work == es[at].work
  }

  /**
   Between pops, whatever order enqueues arrive in, a key's entry is the work of the last enqueue
   that reaches the highest generation, at the earliest requested time; other keys do not matter.
   */
  lemma {:induction false} EnqueuesCoalesce(q: Queue, es: seq<Entry>, k: Key)
    requires k !in q
    ensures if Mentions(es, k) then Coalesced(EnqueuedAll(q, es), es, k) else k !in EnqueuedAll(q, es)
    decreases |es|
  {
    if es != [] {
      var front, e := es[..|es| - 1], es[|es| - 1];
      EnqueuesCoalesce(q, front, k);
      assert es == front + [e];
      if e.work.key != k {
        if Mentions(front, k) { OtherKeyKeeps(EnqueuedAll(q, front), front, e, k); }
      } else if Mentions(front, k) {
        SameKeyMerges(EnqueuedAll(q, front), front, e, k);
      } else {
        assert Winner(es, k, |front|);
      }
    }
  }

  ghost predicate Mentions(es: seq<Entry>, k: Key) {
    exists j :: 0 <= j < |es| && es[j].work.key == k
  }

  lemma OtherKeyKeeps(q: Queue, es: seq<Entry>, e: Entry, k: Key)
    requires Coalesced(q, es, k) && e.work.key != k
    ensures Coalesced(Enqueued(q, e), es + [e], k)
  {
    var at: nat :| Winner(es, k, at) && q[k].work == es[at].work;
    var j :| 0 <= j < |es| && es[j].work.key == k && es[j].notBefore == q[k].notBefore;
    var all := es + [e];
    assert all[j] == es[j] && all[at] == es[at];
    assert Winner(all, k, at);
  }

  lemma SameKeyMerges(q: Queue, es: seq<Entry>, e: Entry, k: Key)
    requires Coalesced(q, es, k) && e.work.key == k
    ensures Coalesced(Enqueued(q, e), es + [e], k)
  {
    var at: nat :| Winner(es, k, at) && q[k].work == es[at].work;
    var j :| 0 <= j < |es| && es[j].work.key == k && es[j].notBefore == q[k].notBefore;
    var all := es + [e];
    assert all[j] == es[j] && all[at] == es[at] && all[|es|] == e;
    assert Winner(all, k, if e.work.generation >= q[k].work.generation then |es| else at);
  }

  // ----- whole runs -----

  datatype Op =
    | Submit(work: Work, at: nat)
    | Drive(leading: bool, now: nat, pipeline: nat -> Outcome)

  /** `submitted` and `finished` record what went in and every reconcile that needs no retry. */
  datatype History = History(queue: Queue, submitted: set<Work>, finished: set<Work>)

  ghost function Results(q: Queue, now: nat, pipeline: nat -> Outcome): (r: seq<Outcome>)
    ensures |r| == |DueKeys(q, now)|
  {
    seq(|DueKeys(q, now)|, i requires 0 <= i => pipeline(i))
  }

  ghost function FinishedBy(q: Queue, now: nat, pipeline: nat -> Outcome): set<Work> {
    var ks := DueKeys(q, now);
    set i | 0 <= i < |ks| && pipeline(i) != BackendError :: q[ks[i]].work
  }

  ghost function Apply(h: History, op: Op, debounce: nat, maxDelay: nat): History {
    match op
    case Submit(work, at) =>
      History(Enqueued(h.queue, Entry(work, SatAdd(at, debounce))), h.submitted + {work}, h.finished)
    case Drive(leading, now, pipeline) =>
      if !leading then h
      else History(Driven(h.queue, Results(h.queue, now, pipeline), now, maxDelay),
                   h.submitted, h.finished + FinishedBy(h.queue, now, pipeline))
  }

  ghost function Run(h: History, ops: seq<Op>, debounce: nat, maxDelay: nat): History
    decreases ops
  {
    if ops == [] then h else Run(Apply(h, ops[0], debounce, maxDelay), ops[1..], debounce, maxDelay)
  }

  /** `done` supersedes `w`: same key, generation at least as large. */
  predicate Covers(done: Work, w: Work) {
    done.key == w.key && done.generation >= w.generation
  }

  ghost predicate Accounted(h: History, w: Work) {
    (w.key in h.queue && Covers(h.queue[w.key].work, w)) || exists d :: d in h.finished && Covers(d, w)
  }

  /** Nothing submitted is lost, and nothing queued or finished was made up. */
  ghost predicate NoLostWork(h: History) {
    && Keyed(h.queue)
    && (forall w :: w in h.submitted ==> Accounted(h, w))
    && (forall k :: k in h.queue ==> h.queue[k].work in h.submitted)
    && h.finished <= h.submitted
  }

  /** After a leader's drive, a key that had been due is still queued with its work, or finished. */
  lemma DriveOfDueKey(h: History, now: nat, pipeline: nat -> Outcome, maxDelay: nat, k: Key)
    requires Keyed(h.queue) && IsDue(h.queue, k, now)
    ensures
      var h' := Apply(h, Drive(true, now, pipeline), 0, maxDelay);
      || (k in h'.queue && h'.queue[k].work == h.queue[k].work)
      || (k !in h'.queue && h.queue[k].work in h'.finished)
  {
    var q, ks, results := h.queue, DueKeys(h.queue, now), Results(h.queue, now, pipeline);
    DriveExact(q, results, now, maxDelay);
    var i :| 0 <= i < |ks| && ks[i] == k;
    assert RequeuedAt(q, ks, results, i, now, maxDelay, Driven(q, results, now, maxDelay));
    assert results[i] == pipeline(i);
    if pipeline(i) != BackendError {
      assert q[ks[i]].work in FinishedBy(q, now, pipeline);
    }
  }

  lemma DriveKeepsWork(h: History, now: nat, pipeline: nat -> Outcome, maxDelay: nat)
    requires NoLostWork(h)
    ensures NoLostWork(Apply(h, Drive(true, now, pipeline), 0, maxDelay))
  {
    var h' := Apply(h, Drive(true, now, pipeline), 0, maxDelay);
    forall k ensures
      if IsDue(h.queue, k, now)
      then (k in h'.queue && h'.queue[k].work == h.queue[k].work) || (k !in h'.queue && h.queue[k].work in h'.finished)
      else (k in h'.queue <==> k in h.queue) && (k in h.queue ==> h'.queue[k] == h.queue[k])
    {
      if IsDue(h.queue, k, now) {
        DriveOfDueKey(h, now, pipeline, maxDelay, k);
      } else {
        DriveExact(h.queue, Results(h.queue, now, pipeline), now, maxDelay);
      }
    }
    forall w | w in h'.submitted ensures Accounted(h', w) {
      assert Accounted(h, w);
    }
    assert forall k :: k in h'.queue ==> k in h.queue && h'.queue[k].work == h.queue[k].work;
  }

  /** Over every run of submissions and drives, no submitted reconcile is lost and none is invented. */
  lemma {:induction false} NoWorkIsLost(h: History, ops: seq<Op>, debounce: nat, maxDelay: nat)
    requires NoLostWork(h)
    ensures NoLostWork(Run(h, ops, debounce, maxDelay))
    decreases ops
  {
    if ops != [] {
      var h' := Apply(h, ops[0], debounce, maxDelay);
      match ops[0] {
        case Submit(work, at) =>
          forall w | w in h'.submitted ensures Accounted(h', w) {
            if w != work { assert Accounted(h, w); }
          }
        case Drive(leading, now, pipeline) =>
          if leading { DriveKeepsWork(h, now, pipeline, maxDelay); }
      }
      NoWorkIsLost(h', ops[1..], debounce, maxDelay);
    }
  }
}
