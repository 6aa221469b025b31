/** A service left behind by a slice that moved away: how long it shows endpoints it no longer has. */
module EndpointStale {
  import opened Ordering
  import opened EndpointSlices
  import opened EndpointView

  /** The operation marks the service as pending. */
  predicate Marks(ctl: ControllerState, op: Op, service: Key) {
    match op
    case Upsert(slice) => Accepts(ctl.slices, slice) && ServiceOf(slice) == service
    case Delete(key) => key in ctl.slices && ServiceOf(ctl.slices[key]) == service
    case Flush => false
  }

  ghost predicate NeverMarks(r: Run, ops: seq<Op>, service: Key)
    decreases ops
  {
    ops == [] || (!Marks(r.ctl, ops[0], service) && NeverMarks(Apply(r, ops[0]), ops[1..], service))
  }

  /** The service is listed first with more than `n` endpoints. */
  ghost predicate ListsMore(services: seq<Service>, service: Key, n: nat) {
    exists i :: IsFirst(services, i) && services[i].key == service && |services[i].endpoints| > n
  }

  /** A service that was touched, awaits no flush, and shows more endpoints than it has. */
  ghost predicate Stale(r: Run, service: Key) {
    && service in r.touched && service !in r.ctl.pending
    && ListsMore(r.view.services, service, |Recompute(r.ctl.slices, service)|)
  }

  lemma ListsMoreThanFewer(services: seq<Service>, service: Key, n: nat, fewer: nat)
    requires ListsMore(services, service, n) && fewer <= n
    ensures ListsMore(services, service, fewer)
  {
  }

  /** A flush does not look at a service that is not pending. */
  lemma FlushKeepsListed(f: Key -> seq<ServiceEndpoint>, pending: set<Key>, services: seq<Service>, left: set<Key>,
                         done: seq<Service>, service: Key, n: nat)
    requires FlushedBy(f, pending, services, left, done) && service !in pending && ListsMore(services, service, n)
    ensures ListsMore(done, service, n)
  {
    var i :| IsFirst(services, i) && services[i].key == service && |services[i].endpoints| > n;
    assert done[i] == services[i];
    assert IsFirst(done, i) by {
      assert forall j :: 0 <= j < i ==> done[j].key == services[j].key;
    }
  }

  /** And gives one that is pending the endpoints it has. */
  lemma FlushRepairs(f: Key -> seq<ServiceEndpoint>, pending: set<Key>, services: seq<Service>, left: set<Key>,
                     done: seq<Service>, service: Key)
    requires FlushedBy(f, pending, services, left, done) && service in pending
    ensures !ListsMore(done, service, |f(service)|)
  {
    forall i | IsFirst(done, i) && done[i].key == service ensures |done[i].endpoints| == |f(service)| {
      assert IsFirst(services, i) by {
        assert forall j :: 0 <= j <= i ==> done[j].key == services[j].key;
      }
    }
  }

  /** What does not mark a service gives it no new endpoints. */
  lemma UnmarkedOnlyLoses(ctl: ControllerState, slice: Slice, service: Key)
    requires Accepts(ctl.slices, slice) && ServiceOf(slice) != service
    ensures |Recompute(ctl.slices[slice.key := slice], service)| <= |Recompute(ctl.slices, service)|
  {
    var a, b := ctl.slices, ctl.slices[slice.key := slice];
    if slice.key in a && ServiceOf(a[slice.key]) == service {
      MovingAwayShortens(a, b, slice.key, service);
    } else {
      RecomputeFrame(a, b, service);
    }
  }

  lemma StaysStale(r: Run, op: Op, service: Key)
    requires Stale(r, service) && !Marks(r.ctl, op, service)
    ensures Stale(Apply(r, op), service)
  {
    match op {
      case Upsert(slice) =>
        if Accepts(r.ctl.slices, slice) {
          UnmarkedOnlyLoses(r.ctl, slice, service);
          ListsMoreThanFewer(r.view.services, service, |Recompute(r.ctl.slices, service)|,
                             |Recompute(r.ctl.slices[slice.key := slice], service)|);
        }
      case Delete(key) =>
        if key in r.ctl.slices { RecomputeFrame(r.ctl.slices, r.ctl.slices - {key}, service); }
      case Flush =>
        var (left, done) := FlushedServices(r.ctl.slices, r.ctl.pending, r.view.services);
        FlushIsFlushedBy(r.ctl.slices, r.ctl.pending, r.view.services);
        FlushKeepsListed(Recomputing(r.ctl.slices), r.ctl.pending, r.view.services, left, done, service,
                         |Recompute(r.ctl.slices, service)|);
    }
  }

  /** A stale service stays stale through any operations, flushes included, none of which marks it. */
  lemma {:induction false} StaleUntilMarked(r: Run, ops: seq<Op>, service: Key)
    requires Stale(r, service) && NeverMarks(r, ops, service)
    ensures Stale(After(r, ops), service)
    decreases ops
  {
    if ops != [] {
      StaysStale(r, ops[0], service);
      StaleUntilMarked(Apply(r, ops[0]), ops[1..], service);
    }
  }

  /** The first operation that marks it does help: one operation and a flush leave it stale exactly if unmarked. */
  lemma RepairedExactly(r: Run, op: Op, service: Key)
    requires Stale(r, service)
    ensures Stale(Apply(Apply(r, op), Flush), service) <==> !Marks(r.ctl, op, service)
  {
    var r' := Apply(r, op);
    if !Marks(r.ctl, op, service) {
      StaysStale(r, op, service);
      StaysStale(r', Flush, service);
    } else {
      var (left, done) := FlushedServices(r'.ctl.slices, r'.ctl.pending, r'.view.services);
      FlushIsFlushedBy(r'.ctl.slices, r'.ctl.pending, r'.view.services);
      FlushRepairs(Recomputing(r'.ctl.slices), r'.ctl.pending, r'.view.services, left, done, service);
    }
  }

  lemma StaleIsInexact(r: Run, service: Key)
    requires Stale(r, service)
    ensures !ViewExact(r)
  {
    var i :| IsFirst(r.view.services, i) && r.view.services[i].key == service
             && |r.view.services[i].endpoints| > |Recompute(r.ctl.slices, service)|;
    assert r.view.services[i].endpoints != Recomputing(r.ctl.slices)(service);
  }

  /** An unsafe upsert leaves the slice's old service stale. */
  lemma UnsafeUpsertIsStale(r: Run, slice: Slice)
    requires Inv(r) && !SafeUpsert(r.ctl, slice)
    ensures Stale(Apply(r, Upsert(slice)), ServiceOf(r.ctl.slices[slice.key]))
  {
    var left := ServiceOf(r.ctl.slices[slice.key]);
    MovingAwayShortens(r.ctl.slices, r.ctl.slices[slice.key := slice], slice.key, left);
    var i := FirstOf(r.view.services, left);
    assert r.view.services[i].endpoints == Recomputing(r.ctl.slices)(left);
  }

  /**
   Nothing repairs an unsafe upsert but an accepted update or a deletion for the service it left: until
   one comes, however often the view is flushed, that service shows endpoints it no longer has.
   */
  lemma UnsafeUpsertSurvives(r: Run, slice: Slice, ops: seq<Op>)
    requires Inv(r) && !SafeUpsert(r.ctl, slice)
    requires NeverMarks(Apply(r, Upsert(slice)), ops, ServiceOf(r.ctl.slices[slice.key]))
    ensures
      var last := After(Apply(r, Upsert(slice)), ops);
      Stale(last, ServiceOf(r.ctl.slices[slice.key])) && !ViewExact(last)
  {
    var left, moved := ServiceOf(r.ctl.slices[slice.key]), Apply(r, Upsert(slice));
    UnsafeUpsertIsStale(r, slice);
    StaleUntilMarked(moved, ops, left);
    StaleIsInexact(After(moved, ops), left);
  }

  /** For example, one ready pod in a slice that moves from service `a` to service `b`, and any number of flushes. */
  lemma MovedSliceExample(flushes: seq<Op>)
    requires forall i :: 0 <= i < |flushes| ==> flushes[i] == Flush
    ensures
      var moved := Apply(Apply(Apply(OneService(), Upsert(PodSlice("a", 1))), Flush), Upsert(PodSlice("b", 2)));
      Stale(After(moved, flushes), Key("edge", "a"))
  {
    PodFlushed();
    var r := Apply(Apply(OneService(), Upsert(PodSlice("a", 1))), Flush);
    MovingPodIsUnsafe(r.ctl);
    FlushesNeverMark(Apply(r, Upsert(PodSlice("b", 2))), flushes, Key("edge", "a"));
    UnsafeUpsertSurvives(r, PodSlice("b", 2), flushes);
  }

  lemma {:induction false} FlushesNeverMark(r: Run, flushes: seq<Op>, service: Key)
    requires forall i :: 0 <= i < |flushes| ==> flushes[i] == Flush
    ensures NeverMarks(r, flushes, service)
    decreases flushes
  {
    if flushes != [] { FlushesNeverMark(Apply(r, flushes[0]), flushes[1..], service); }
  }

  lemma MovingPodIsUnsafe(ctl: ControllerState)
    requires ctl.slices == map[Key("edge", "s") := PodSlice("a", 1)] && ctl.pending == {}
    ensures !SafeUpsert(ctl, PodSlice("b", 2))
  {
    PodIsLive("a", 1);
    PodIsLive("b", 2);
  }
}
