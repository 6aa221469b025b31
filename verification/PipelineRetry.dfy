/**
 A drive of the reconcile queue hands each entry's resources to the pipeline, which flushes the endpoint
 controller into them. A backend failure puts the entry back with the resources it came with, after the
 flush has cleared the pending marks.
 */
module PipelineRetry {
  import opened Basics
  import opened Ordering
  import opened EndpointSlices
  import View = EndpointView
  import Queue = ReconcileQueue

  type Entries = seq<Queue.Entry>

  function ServicesOf(e: Queue.Entry): seq<Service> {
    e.work.resources.services
  }

  /** Reconciling entries one after another: the controller afterwards, and the resources each reconcile saw. */
  function Views(ctl: ControllerState, es: Entries): (ControllerState, seq<Resources>) {
    if es == [] then (ctl, [])
    else
      var (before, views) := Views(ctl, es[..|es| - 1]);
      var (after, view) := Flushed(before, es[|es| - 1].work.resources);
      (after, views + [view])
  }

  method ReconcileViews(controller: EndpointSliceController, es: Entries) returns (views: seq<Resources>)
    modifies controller
    ensures (controller.Model(), views) == Views(old(controller.Model()), es)
  {
    views := [];
    ghost var start := controller.Model();
    for i := 0 to |es|
      invariant (controller.Model(), views) == Views(start, es[..i])
    {
      assert es[..i + 1][..i] == es[..i];
      var view := controller.FlushInto(es[i].work.resources);
      views := views + [view];
    }
    assert es[..|es|] == es;
  }

  // ----- what each reconcile sees -----

  /** One of the first `n` entries lists the service. */
  ghost predicate Listed(es: Entries, n: int, service: Key)
    requires 0 <= n <= |es|
  {
    exists m :: 0 <= m < n && View.Present(ServicesOf(es[m]), service)
  }

  lemma ListedFront(es: Entries, n: int, service: Key)
    requires 0 <= n < |es|
    ensures Listed(es[..|es| - 1], n, service) <==> Listed(es, n, service)
    ensures Listed(es, |es|, service) <==>
      Listed(es[..|es| - 1], |es| - 1, service) || View.Present(ServicesOf(es[|es| - 1]), service)
  {
    var front := es[..|es| - 1];
    assert forall m :: 0 <= m < |front| ==> front[m] == es[m];
    if m :| 0 <= m < |es| && View.Present(ServicesOf(es[m]), service) && m < |front| {
      assert View.Present(ServicesOf(front[m]), service);
    }
  }

  /** Flushes keep the slices and clear exactly the marks of services they find listed. */
  lemma {:induction false} ViewsLeave(ctl: ControllerState, es: Entries, service: Key)
    ensures |Views(ctl, es).1| == |es| && Views(ctl, es).0.slices == ctl.slices
    ensures service in Views(ctl, es).0.pending <==> service in ctl.pending && !Listed(es, |es|, service)
    decreases |es|
  {
    if es != [] {
      var front, last := es[..|es| - 1], es[|es| - 1];
      ViewsLeave(ctl, front, service);
      ListedFront(es, |es| - 1, service);
      var before := Views(ctl, front).0;
      View.FlushExact(before.slices, before.pending, ServicesOf(last));
    }
  }

  lemma {:induction false} ViewAt(ctl: ControllerState, es: Entries, j: int)
    requires 0 <= j < |es|
    ensures |Views(ctl, es).1| == |es|
    ensures Views(ctl, es).1[j] == Flushed(Views(ctl, es[..j]).0, es[j].work.resources).1
    decreases |es|
  {
    var front := es[..|es| - 1];
    ViewsLeave(ctl, front, Key("", ""));
    if j < |es| - 1 {
      ViewAt(ctl, front, j);
      assert front[..j] == es[..j];
    }
  }

  /** The resources show the recomputation of the service listed at `i`. */
  predicate Shows(slices: SliceMap, services: seq<Service>, i: int)
    requires 0 <= i < |services|
  {
    services[i].endpoints == Recompute(slices, services[i].key)
  }

  /**
   A reconcile sees a service recomputed exactly when it is pending and no earlier entry lists it, or the entry
   already showed it.
   */
  lemma ViewShowsExactly(ctl: ControllerState, es: Entries, j: int, i: int)
    requires 0 <= j < |es| && View.IsFirst(ServicesOf(es[j]), i)
    ensures
      var views, service := Views(ctl, es).1, ServicesOf(es[j])[i].key;
      && |views| == |es| && |views[j].services| == |ServicesOf(es[j])| && views[j].services[i].key == service
      && (Shows(ctl.slices, views[j].services, i) <==>
            (service in ctl.pending && !Listed(es, j, service)) || Shows(ctl.slices, ServicesOf(es[j]), i))
  {
    var service := ServicesOf(es[j])[i].key;
    ViewAt(ctl, es, j);
    ViewsLeave(ctl, es[..j], service);
    assert Listed(es[..j], j, service) <==> Listed(es, j, service);
    var before := Views(ctl, es[..j]).0;
    View.FlushExact(before.slices, before.pending, ServicesOf(es[j]));
  }

  // ----- a retried reconcile -----

  datatype Plant = Plant(queue: Queue.Queue, ctl: ControllerState)

  function Due(p: Plant, now: nat): Entries {
    Queue.Picked(p.queue, Queue.DueKeys(p.queue, now))
  }

  /** One drive by the leader, with the pipeline's results. */
  function Drive(p: Plant, results: seq<Queue.Outcome>, now: nat, maxDelay: nat): Plant
    requires |results| == |Queue.DueKeys(p.queue, now)|
  {
    Plant(Queue.Driven(p.queue, results, now, maxDelay), Views(p.ctl, Due(p, now)).0)
  }

  /** Entry `j` of the drive failed in the backend. */
  predicate FailedAt(p: Plant, results: seq<Queue.Outcome>, now: nat, j: int) {
    0 <= j < |results| == |Queue.DueKeys(p.queue, now)| && results[j] == Queue.BackendError
  }

  /** After a failed reconcile the entry is queued with its own resources, and none of its services is pending. */
  lemma FailureLeaves(p: Plant, results: seq<Queue.Outcome>, now: nat, maxDelay: nat, j: int, i: int)
    requires Queue.Keyed(p.queue) && FailedAt(p, results, now, j) && 0 <= i < |ServicesOf(Due(p, now)[j])|
    ensures
      var next, e := Drive(p, results, now, maxDelay), Due(p, now)[j];
      && e.work.key in next.queue && next.queue[e.work.key].work == e.work
      && next.ctl.slices == p.ctl.slices && ServicesOf(e)[i].key !in next.ctl.pending
  {
    var es, ks := Due(p, now), Queue.DueKeys(p.queue, now);
    Queue.DriveExact(p.queue, results, now, maxDelay);
    assert Queue.RequeuedAt(p.queue, ks, results, j, now, maxDelay, Queue.Driven(p.queue, results, now, maxDelay));
    var service := ServicesOf(es[j])[i].key;
    ViewsLeave(p.ctl, es, service);
    assert View.Present(ServicesOf(es[j]), service);
  }

  lemma KeyedAfter(p: Plant, results: seq<Queue.Outcome>, now: nat, maxDelay: nat)
    requires Queue.Keyed(p.queue) && |results| == |Queue.DueKeys(p.queue, now)|
    ensures Queue.Keyed(Drive(p, results, now, maxDelay).queue)
  {
    var q, ks := Drive(p, results, now, maxDelay).queue, Queue.DueKeys(p.queue, now);
    Queue.DriveExact(p.queue, results, now, maxDelay);
    forall k | k in q ensures q[k].work.key == k {
      if Queue.IsDue(p.queue, k, now) {
        var i :| 0 <= i < |ks| && ks[i] == k;
        assert Queue.RequeuedAt(p.queue, ks, results, i, now, maxDelay, q);
      }
    }
  }

  // ----- what happens between failure and retry -----

  datatype Event =
    | Update(slice: Slice)
    | Remove(key: Key)
    | Submit(work: Queue.Work, at: nat)
    | DriveDue(now: nat, pipeline: nat -> Queue.Outcome)

  datatype Delays = Delays(debounce: nat, maxDelay: nat)

  ghost function Happened(p: Plant, e: Event, d: Delays): Plant {
    match e
    case Update(slice) => p.(ctl := Upserted(p.ctl, slice))
    case Remove(key) => p.(ctl := Deleted(p.ctl, key))
    case Submit(work, at) => p.(queue := Queue.Enqueued(p.queue, Queue.Entry(work, SatAdd(at, d.debounce))))
    case DriveDue(now, pipeline) => Drive(p, Queue.Results(p.queue, now, pipeline), now, d.maxDelay)
  }

  ghost function Later(p: Plant, events: seq<Event>, d: Delays): Plant {
    if events == [] then p else Happened(Later(p, events[..|events| - 1], d), events[|events| - 1], d)
  }

  /** The event marks the service as pending. */
  predicate Marks(p: Plant, e: Event, service: Key) {
    match e
    case Update(slice) => Accepts(p.ctl.slices, slice) && ServiceOf(slice) == service
    case Remove(key) => key in p.ctl.slices && ServiceOf(p.ctl.slices[key]) == service
    case _ => false
  }

  /** The event is a drive with a due entry that lists the service. */
  ghost predicate Clears(p: Plant, e: Event, service: Key) {
    e.DriveDue? && Listed(Due(p, e.now), |Due(p, e.now)|, service)
  }

  /** Whether an event marks a service and whether it clears its mark. */
  datatype Effect = Effect(marks: bool, clears: bool)

  ghost function EffectOf(p: Plant, e: Event, service: Key): Effect {
    Effect(Marks(p, e, service), Clears(p, e, service))
  }

  /** The effect on the service of each event, in the state it finds. */
  ghost function Effects(p: Plant, events: seq<Event>, d: Delays, service: Key): (fs: seq<Effect>)
    ensures |fs| == |events|
  {
    if events == [] then []
    else
      var front := events[..|events| - 1];
      Effects(p, front, d, service) + [EffectOf(Later(p, front, d), events[|events| - 1], service)]
  }

  predicate NoClears(fs: seq<Effect>, i: nat) {
    forall j :: i <= j < |fs| ==> !fs[j].clears
  }

  /** Some event marks the service and none after it clears the mark. */
  predicate Waits(fs: seq<Effect>) {
    exists i :: 0 <= i < |fs| && fs[i].marks && NoClears(fs, i + 1)
  }

  lemma HappenedPending(p: Plant, e: Event, d: Delays, service: Key)
    ensures service in Happened(p, e, d).ctl.pending <==>
      Marks(p, e, service) || (service in p.ctl.pending && !Clears(p, e, service))
  {
    if e.DriveDue? { ViewsLeave(p.ctl, Due(p, e.now), service); }
  }

  lemma WaitsSnoc(fs: seq<Effect>, f: Effect)
    ensures Waits(fs + [f]) <==> f.marks || (Waits(fs) && !f.clears)
    ensures NoClears(fs + [f], 0) <==> NoClears(fs, 0) && !f.clears
  {
    var all := fs + [f];
    assert all[|fs|] == f && forall i :: 0 <= i < |fs| ==> all[i] == fs[i];
    if f.marks { assert NoClears(all, |fs| + 1); }
    if i :| 0 <= i < |fs| && fs[i].marks && NoClears(fs, i + 1) {
      if !f.clears { assert NoClears(all, i + 1); }
    }
    if i :| 0 <= i < |fs| && all[i].marks && NoClears(all, i + 1) {
      assert NoClears(fs, i + 1);
    }
  }

  /**
   Over any updates, submissions and drives, a service is pending exactly when it was marked by an event
   after which no drive has cleared it, or was pending from the start and never cleared.
   */
  lemma {:induction false} PendingExactly(p: Plant, events: seq<Event>, d: Delays, service: Key)
    ensures
      var fs := Effects(p, events, d, service);
      service in Later(p, events, d).ctl.pending <==> Waits(fs) || (service in p.ctl.pending && NoClears(fs, 0))
    decreases |events|
  {
    if events != [] {
      var front, last := events[..|events| - 1], events[|events| - 1];
      PendingExactly(p, front, d, service);
      HappenedPending(Later(p, front, d), last, d, service);
      WaitsSnoc(Effects(p, front, d, service), EffectOf(Later(p, front, d), last, service));
    }
  }

  /** The event neither replaces the work queued under `k` nor is a drive at which it is due. */
  predicate Leaves(p: Plant, e: Event, k: Key) {
    match e
    case Submit(work, _) => work.key == k && k in p.queue ==> work.generation < p.queue[k].work.generation
    case DriveDue(now, _) => !Queue.IsDue(p.queue, k, now)
    case _ => true
  }

  /** Each event leaves it so, in the state it finds. */
  ghost predicate AllLeave(p: Plant, events: seq<Event>, d: Delays, k: Key) {
    events == [] ||
      (var front := events[..|events| - 1];
       AllLeave(p, front, d, k) && Leaves(Later(p, front, d), events[|events| - 1], k))
  }

  lemma LeavesWork(p: Plant, e: Event, d: Delays, k: Key)
    requires Queue.Keyed(p.queue) && k in p.queue && Leaves(p, e, k)
    ensures
      var p' := Happened(p, e, d);
      Queue.Keyed(p'.queue) && k in p'.queue && p'.queue[k].work == p.queue[k].work
  {
    if e.DriveDue? {
      var results := Queue.Results(p.queue, e.now, e.pipeline);
      KeyedAfter(p, results, e.now, d.maxDelay);
      Queue.DriveExact(p.queue, results, e.now, d.maxDelay);
    }
  }

  lemma {:induction false} WorkStays(p: Plant, events: seq<Event>, d: Delays, k: Key)
    requires Queue.Keyed(p.queue) && k in p.queue && AllLeave(p, events, d, k)
    ensures
      var q := Later(p, events, d).queue;
      Queue.Keyed(q) && k in q && q[k].work == p.queue[k].work
    decreases |events|
  {
    if events != [] {
      var front := events[..|events| - 1];
      WorkStays(p, front, d, k);
      LeavesWork(Later(p, front, d), events[|front|], d, k);
    }
  }

  /**
   A reconcile fails in the backend and is retried. In between come any slice updates, submissions and
   drives that leave the failed entry's work in the queue. The retry then sees a service recomputed
   exactly when some update in between marked it, no drive since and no earlier entry of its own drive
   has cleared that mark, or the resources it was submitted with already showed it. What was pending
   before the failure is lost to it.
   */
  lemma RetryShowsExactly(p: Plant, results: seq<Queue.Outcome>, now: nat, d: Delays, j: int, events: seq<Event>,
                          later: nat, j': int, i: int)
    requires Queue.Keyed(p.queue) && FailedAt(p, results, now, j) && View.IsFirst(ServicesOf(Due(p, now)[j]), i)
    requires
      var next := Drive(p, results, now, d.maxDelay);
      var es := Due(Later(next, events, d), later);
      && AllLeave(next, events, d, Due(p, now)[j].work.key)
      && 0 <= j' < |es| && es[j'].work.key == Due(p, now)[j].work.key
    ensures
      var next := Drive(p, results, now, d.maxDelay);
      var retry := Later(next, events, d);
      var es, failed := Due(retry, later), Due(p, now)[j];
      var views, service := Views(retry.ctl, es).1, ServicesOf(failed)[i].key;
      && es[j'].work == failed.work && |views| == |es| && |views[j'].services| == |ServicesOf(failed)|
      && (Shows(retry.ctl.slices, views[j'].services, i) <==>
            (Waits(Effects(next, events, d, service)) && !Listed(es, j', service))
            || Shows(retry.ctl.slices, ServicesOf(failed), i))
  {
    var next, failed := Drive(p, results, now, d.maxDelay), Due(p, now)[j];
    var service := ServicesOf(failed)[i].key;
    FailureLeaves(p, results, now, d.maxDelay, j, i);
    KeyedAfter(p, results, now, d.maxDelay);
    WorkStays(next, events, d, failed.work.key);
    var retry := Later(next, events, d);
    var es := Due(retry, later);
    assert es[j'] == retry.queue[Queue.DueKeys(retry.queue, later)[j']];
    PendingExactly(next, events, d, service);
    ViewShowsExactly(retry.ctl, es, j', i);
  }

  // ----- an example -----

  /** Work for service `a`, submitted without endpoints and due at once. */
  ghost function OneEntry(generation: nat): Queue.Entry {
    Queue.Entry(Queue.Work(Key("edge", "w"), View.OneService().view, generation, None), 0)
  }

  /** One entry queued, and one ready pod of its service pending. */
  ghost function OnePod(generation: nat): Plant {
    Plant(map[OneEntry(generation).work.key := OneEntry(generation)],
          Upserted(View.OneService().ctl, View.PodSlice("a", 1)))
  }

  lemma OneDue(p: Plant, now: nat)
    requires p.queue.Keys == {Key("edge", "w")} && p.queue[Key("edge", "w")].notBefore <= now
    ensures Queue.DueKeys(p.queue, now) == [Key("edge", "w")]
    ensures Due(p, now) == [p.queue[Key("edge", "w")]]
  {
    var ks := Queue.DueKeys(p.queue, now);
    assert Queue.IsDue(p.queue, Key("edge", "w"), now);
    assert Key("edge", "w") in ks;
    assert ks == [Key("edge", "w")];
  }

  lemma OneRequeued(generation: nat)
    ensures |Queue.DueKeys(OnePod(generation).queue, 0)| == 1
    ensures
      var later := Queue.RequeueTime(0, 1000);
      Drive(OnePod(generation), [Queue.BackendError], 0, 1000).queue
        == map[Key("edge", "w") := OneEntry(generation).(notBefore := later)]
  {
    var first := OnePod(generation);
    OneDue(first, 0);
    assert first.queue - Queue.DueSet(first.queue, 0) == map[];
    assert Queue.Settled(map[], [], [], 0, 1000) == map[];
  }

  /** The backend fails on the reconcile that would have brought the pod in, and the retry goes without it. */
  lemma RetryLosesPod(generation: nat)
    ensures
      var first := OnePod(generation);
      && |Queue.DueKeys(first.queue, 0)| == |Due(first, 0)| == |Views(first.ctl, Due(first, 0)).1| == 1
      && var next, later := Drive(first, [Queue.BackendError], 0, 1000), Queue.RequeueTime(0, 1000);
      && next.ctl.slices == first.ctl.slices
      && Due(next, later) == [OneEntry(generation).(notBefore := later)]
      && var brought, retried := Views(first.ctl, Due(first, 0)).1, Views(next.ctl, Due(next, later)).1;
      && |brought[0].services| == 1 && |brought[0].services[0].endpoints| == 1
      && |retried| == 1 && retried[0] == OneEntry(generation).work.resources && retried[0].services[0].endpoints == []
  {
    var first, results := OnePod(generation), [Queue.BackendError];
    OneDue(first, 0);
    PodIsBrought(generation);
    FailureLeaves(first, results, 0, 1000, 0, 0);
    OneRequeued(generation);
    var next, later := Drive(first, results, 0, 1000), Queue.RequeueTime(0, 1000);
    OneDue(next, later);
    NothingPending(next.ctl, OneEntry(generation).(notBefore := later));
  }

  lemma PodIsBrought(generation: nat)
    ensures
      var views := Views(OnePod(generation).ctl, [OneEntry(generation)]).1;
      |views| == |views[0].services| == |views[0].services[0].endpoints| == 1
  {
    View.PodUpserted();
    View.PodRecomputed();
    ViewShowsExactly(OnePod(generation).ctl, [OneEntry(generation)], 0, 0);
  }

  lemma NothingPending(ctl: ControllerState, e: Queue.Entry)
    requires forall i :: 0 <= i < |ServicesOf(e)| ==> ServicesOf(e)[i].key !in ctl.pending
    ensures Views(ctl, [e]).1 == [e.work.resources]
  {
    View.FlushExact(ctl.slices, ctl.pending, ServicesOf(e));
    assert Views(ctl, [e][..0]) == (ctl, []);
    assert Flushed(ctl, e.work.resources).1.services == ServicesOf(e);
  }
}
