/**
 The maintained view against full recomputation. Only services in the pending set are rewritten by a
 flush; these results say when that is enough, over whole runs.
 */
module EndpointView {
  import opened Basics
  import opened Ordering
  import opened EndpointSlices

  // ----- what a recomputation contains -----

  lemma {:induction false} LiveAmongMembers(ports: seq<nat>, es: seq<Endpoint>, x: ServiceEndpoint)
    ensures x in LiveAmong(ports, es) <==> exists i :: 0 <= i < |es| && LiveOf(ports, es[i]) == [x]
    decreases |es|
  {
    if es != [] {
      var last := |es| - 1;
      LiveAmongMembers(ports, es[..last], x);
      assert forall i :: 0 <= i < last ==> es[..last][i] == es[i];
      assert x in LiveOf(ports, es[last]) <==> LiveOf(ports, es[last]) == [x];
    }
  }

  lemma {:induction false} GatherMembers(slices: SliceMap, keys: seq<Key>, x: ServiceEndpoint)
    ensures x in Gather(slices, keys) <==> exists k :: k in keys && x in LiveAt(slices, k)
    decreases |keys|
  {
    if keys != [] {
      var last := |keys| - 1;
      GatherMembers(slices, keys[..last], x);
      assert keys == keys[..last] + [keys[last]];
    }
  }

  lemma ByIdIsPreorder()
    ensures TotalPreorder(ById)
  {
    StrOrder();
  }

  /** `x` is the first address of a ready, serving, non-terminating endpoint of one of the service's slices. */
  ghost predicate IsLiveEndpointOf(slices: SliceMap, service: Key, x: ServiceEndpoint) {
    exists k, i :: k in slices && ServiceOf(slices[k]) == service && 0 <= i < |slices[k].endpoints|
                   && LiveOf(slices[k].ports, slices[k].endpoints[i]) == [x]
  }

  lemma RecomputeMembers(slices: SliceMap, service: Key, x: ServiceEndpoint)
    ensures x in Recompute(slices, service) <==> IsLiveEndpointOf(slices, service, x)
  {
    var keys := KeysOf(slices, service);
    SortKeeps(Gather(slices, keys), ById);
    GatherMembers(slices, keys, x);
    if x in Recompute(slices, service) {
      var k :| k in keys && x in LiveAt(slices, k);
      LiveAmongMembers(slices[k].ports, slices[k].endpoints, x);
    }
    if IsLiveEndpointOf(slices, service, x) {
      var k, i :| k in slices && ServiceOf(slices[k]) == service && 0 <= i < |slices[k].endpoints|
                  && LiveOf(slices[k].ports, slices[k].endpoints[i]) == [x];
      LiveAmongMembers(slices[k].ports, slices[k].endpoints, x);
      assert k in keys && x in LiveAt(slices, k);
    }
  }

  /** The live endpoints of some slices, with repetition and in no order. */
  ghost function LiveBag(slices: SliceMap, keys: set<Key>): multiset<ServiceEndpoint> {
    if keys == {} then multiset{}
    else
      var k :| k in keys;
      multiset(LiveAt(slices, k)) + LiveBag(slices, keys - {k})
  }

  lemma {:induction false} LiveBagMinus(slices: SliceMap, keys: set<Key>, k: Key)
    requires k in keys
    ensures LiveBag(slices, keys) == multiset(LiveAt(slices, k)) + LiveBag(slices, keys - {k})
    decreases |keys|
  {
    var m :| m in keys && LiveBag(slices, keys) == multiset(LiveAt(slices, m)) + LiveBag(slices, keys - {m});
    if m != k {
      LiveBagMinus(slices, keys - {m}, k);
      LiveBagMinus(slices, keys - {k}, m);
      assert keys - {m} - {k} == keys - {k} - {m};
    }
  }

  lemma {:induction false} GatherBag(slices: SliceMap, keys: seq<Key>, among: set<Key>)
    requires NoDuplicates(keys) && forall k :: k in keys <==> k in among
    ensures multiset(Gather(slices, keys)) == LiveBag(slices, among)
    decreases |keys|
  {
    if keys == [] {
      assert among == {};
    } else {
      var front, last := keys[..|keys| - 1], keys[|keys| - 1];
      assert last !in front && keys == front + [last];
      GatherBag(slices, front, among - {last});
      LiveBagMinus(slices, among, last);
    }
  }

  /**
   A recomputation lists, sorted by id, exactly the live endpoints of the service's current slices, each
   as often as the slices do.
   */
  lemma RecomputeMeaning(slices: SliceMap, service: Key)
    ensures SortedBy(Recompute(slices, service), ById)
    ensures forall x :: x in Recompute(slices, service) <==> IsLiveEndpointOf(slices, service, x)
    ensures multiset(Recompute(slices, service)) == LiveBag(slices, SlicesOf(slices, service))
  {
    ByIdIsPreorder();
    var keys := KeysOf(slices, service);
    SortOrders(Gather(slices, keys), ById);
    SortKeeps(Gather(slices, keys), ById);
    GatherBag(slices, keys, SlicesOf(slices, service));
    forall x ensures x in Recompute(slices, service) <==> IsLiveEndpointOf(slices, service, x) {
      RecomputeMembers(slices, service, x);
    }
  }

  // ----- a recomputation depends only on the service's own slices -----

  lemma {:induction false} GatherFrame(a: SliceMap, b: SliceMap, keys: seq<Key>)
    requires forall k :: k in keys ==> LiveAt(a, k) == LiveAt(b, k)
    ensures Gather(a, keys) == Gather(b, keys)
    decreases |keys|
  {
    if keys != [] {
      GatherFrame(a, b, keys[..|keys| - 1]);
    }
  }

  lemma RecomputeFrame(a: SliceMap, b: SliceMap, service: Key)
    requires forall k :: (k in a && ServiceOf(a[k]) == service) || (k in b && ServiceOf(b[k]) == service)
                         ==> k in a && k in b && a[k] == b[k]
    ensures Recompute(a, service) == Recompute(b, service)
  {
    assert SlicesOf(a, service) == SlicesOf(b, service);
    GatherFrame(a, b, KeysOf(a, service));
  }

  lemma GatherSnoc(slices: SliceMap, keys: seq<Key>, k: Key)
    ensures Gather(slices, keys + [k]) == Gather(slices, keys) + LiveAt(slices, k)
  {
    assert (keys + [k])[..|keys|] == keys;
  }

  lemma {:induction false} GatherSplit(slices: SliceMap, p: seq<Key>, q: seq<Key>)
    ensures Gather(slices, p + q) == Gather(slices, p) + Gather(slices, q)
    decreases |q|
  {
    if q == [] {
      assert p + q == p;
    } else {
      var front, k := q[..|q| - 1], q[|q| - 1];
      GatherSplit(slices, p, front);
      GatherSnoc(slices, p + front, k);
      GatherSnoc(slices, front, k);
      ConcatAssociates(p, front, [k]);
      ConcatAssociates(Gather(slices, p), Gather(slices, front), LiveAt(slices, k));
      assert q == front + [k];
    }
  }

  lemma ConcatAssociates<T>(a: seq<T>, b: seq<T>, c: seq<T>)
    ensures a + (b + c) == a + b + c
  {
  }

  lemma GatherWithout(a: SliceMap, b: SliceMap, p: seq<Key>, moved: Key, q: seq<Key>)
    requires forall k :: k in p + q ==> LiveAt(a, k) == LiveAt(b, k)
    ensures |Gather(a, p + [moved] + q)| == |Gather(b, p + q)| + |LiveAt(a, moved)|
    ensures LiveAt(a, moved) == [] ==> Gather(a, p + [moved] + q) == Gather(b, p + q)
  {
    GatherSplit(a, p + [moved], q);
    GatherSplit(a, p, [moved]);
    GatherSplit(a, p, q);
    GatherFrame(a, b, p + q);
    assert Gather(a, [moved]) == LiveAt(a, moved) by { assert [moved][..0] == []; }
  }

  /** Moving a slice away from a service shortens its endpoints by what the slice contributed. */
  lemma MovingAwayShortens(a: SliceMap, b: SliceMap, moved: Key, service: Key)
    requires moved in a && ServiceOf(a[moved]) == service
    requires moved !in b || ServiceOf(b[moved]) != service
    requires forall k :: k != moved ==> (k in a <==> k in b) && (k in a ==> a[k] == b[k])
    ensures |Recompute(a, service)| == |Recompute(b, service)| + |LiveEndpoints(a[moved])|
    ensures LiveEndpoints(a[moved]) == [] ==> Recompute(a, service) == Recompute(b, service)
  {
    var p, q := KeysWithout(a, b, moved, service);
    GatherWithout(a, b, p, moved, q);
    SortKeeps(Gather(a, p + [moved] + q), ById);
    SortKeeps(Gather(b, p + q), ById);
  }

  lemma KeysWithout(a: SliceMap, b: SliceMap, moved: Key, service: Key) returns (p: seq<Key>, q: seq<Key>)
    requires moved in a && ServiceOf(a[moved]) == service
    requires moved !in b || ServiceOf(b[moved]) != service
    requires forall k :: k != moved ==> (k in a <==> k in b) && (k in a ==> a[k] == b[k])
    ensures KeysOf(a, service) == p + [moved] + q && KeysOf(b, service) == p + q
    ensures forall k :: k in p + q ==> LiveAt(a, k) == LiveAt(b, k)
  {
    assert SlicesOf(b, service) == SlicesOf(a, service) - {moved};
    p, q := SortedKeysMinus(SlicesOf(a, service), moved);
    forall k | k in p + q ensures LiveAt(a, k) == LiveAt(b, k) {
      assert k in KeysOf(b, service);
      assert k in SlicesOf(b, service) && k != moved;
    }
  }

  // ----- what a flush does to every service -----

  predicate IsFirst(services: seq<Service>, i: int) {
    0 <= i < |services| && forall j :: 0 <= j < i ==> services[j].key != services[i].key
  }

  predicate Present(services: seq<Service>, key: Key) {
    exists i :: 0 <= i < |services| && services[i].key == key
  }

  lemma ListingSnoc(front: seq<Service>, s: Service)
    ensures forall i :: 0 <= i < |front| ==> (IsFirst(front + [s], i) <==> IsFirst(front, i))
    ensures IsFirst(front + [s], |front|) <==> !Present(front, s.key)
    ensures forall k :: Present(front + [s], k) <==> Present(front, k) || s.key == k
  {
    var services := front + [s];
    assert forall i :: 0 <= i < |front| ==> services[i] == front[i];
    forall k ensures Present(services, k) <==> Present(front, k) || s.key == k {
      if s.key == k { assert services[|front|].key == k; }
    }
  }

  /** What each service's endpoints are recomputed to. */
  function Recomputing(slices: SliceMap): Key -> seq<ServiceEndpoint> {
    k => Recompute(slices, k)
  }

  /** The first service listed under each pending key takes its value of `f`; keys found nowhere stay pending. */
  ghost predicate FlushedBy(f: Key -> seq<ServiceEndpoint>, pending: set<Key>, services: seq<Service>,
                            left: set<Key>, done: seq<Service>)
  {
    && |done| == |services|
    && (forall i :: 0 <= i < |services| ==>
          done[i] == if IsFirst(services, i) && services[i].key in pending
                     then services[i].(endpoints := f(services[i].key)) else services[i])
    && (forall k :: k in left <==> k in pending && !Present(services, k))
  }

  lemma FlushStep(f: Key -> seq<ServiceEndpoint>, pending: set<Key>, front: seq<Service>, left: set<Key>,
                  done: seq<Service>, s: Service)
    requires FlushedBy(f, pending, front, left, done)
    ensures FlushedBy(f, pending, front + [s], left - {s.key},
                      done + [if s.key in left then s.(endpoints := f(s.key)) else s])
  {
    ListingSnoc(front, s);
  }

  /**
   A flush rewrites the first service listed under each pending key, leaves every other service and
   field alone, and keeps pending exactly the keys it found no service for.
   */
  lemma {:induction false} FlushExact(slices: SliceMap, pending: set<Key>, services: seq<Service>)
    ensures
      var (left, done) := FlushedServices(slices, pending, services);
      && |done| == |services|
      && (forall i :: 0 <= i < |services| ==>
            done[i] == if IsFirst(services, i) && services[i].key in pending
                       then services[i].(endpoints := Recompute(slices, services[i].key)) else services[i])
      && (forall k :: k in left <==> k in pending && !Present(services, k))
    decreases |services|
  {
    FlushIsFlushedBy(slices, pending, services);
  }

  lemma FlushedLast(slices: SliceMap, pending: set<Key>, services: seq<Service>)
    requires services != []
    ensures
      var (left, done) := FlushedServices(slices, pending, services[..|services| - 1]);
      var s := services[|services| - 1];
      FlushedServices(slices, pending, services) ==
        (left - {s.key}, done + [if s.key in left then s.(endpoints := Recomputing(slices)(s.key)) else s])
  {
    var left := FlushedServices(slices, pending, services[..|services| - 1]).0;
    var key := services[|services| - 1].key;
    assert key !in left ==> left - {key} == left;
  }

  lemma {:induction false} FlushIsFlushedBy(slices: SliceMap, pending: set<Key>, services: seq<Service>)
    ensures
      var (left, done) := FlushedServices(slices, pending, services);
      FlushedBy(Recomputing(slices), pending, services, left, done)
    decreases |services|
  {
    if services != [] {
      var front, s := services[..|services| - 1], services[|services| - 1];
      var (left, done) := FlushedServices(slices, pending, front);
      FlushIsFlushedBy(slices, pending, front);
      FlushStep(Recomputing(slices), pending, front, left, done, s);
      FlushedLast(slices, pending, services);
      assert services == front + [s];
    }
  }

  // ----- runs -----

  datatype Op = Upsert(slice: Slice) | Delete(key: Key) | Flush

  /** `touched` is every service ever marked dirty and `drained` how many marks flushes have cleared. */
  datatype Run = Run(ctl: ControllerState, view: Resources, touched: set<Key>, drained: nat)

  ghost function Apply(r: Run, op: Op): Run {
    match op
    case Upsert(slice) =>
      var touched := if Accepts(r.ctl.slices, slice) then r.touched + {ServiceOf(slice)} else r.touched;
      r.(ctl := Upserted(r.ctl, slice), touched := touched)
    case Delete(key) =>
      var touched := if key in r.ctl.slices then r.touched + {ServiceOf(r.ctl.slices[key])} else r.touched;
      r.(ctl := Deleted(r.ctl, key), touched := touched)
    case Flush =>
      var (ctl, view) := Flushed(r.ctl, r.view);
      Run(ctl, view, r.touched, r.drained + |r.ctl.pending - ctl.pending|)
  }

  ghost function After(r: Run, ops: seq<Op>): Run
    decreases ops
  {
    if ops == [] then r else After(Apply(r, ops[0]), ops[1..])
  }

  /**
   What the caller of an upsert can check beforehand: the slice stays with its service, or the
   service it leaves is already pending, or it contributed nothing there.
   */
  predicate SafeUpsert(ctl: ControllerState, slice: Slice) {
    Accepts(ctl.slices, slice) && slice.key in ctl.slices ==>
      var current := ctl.slices[slice.key];
      ServiceOf(current) == ServiceOf(slice) || ServiceOf(current) in ctl.pending || LiveEndpoints(current) == []
  }

  /** Every touched service with nothing pending shows its recomputation. */
  ghost predicate ViewExact(r: Run) {
    AllShow(Recomputing(r.ctl.slices), r.view.services, r.touched - r.ctl.pending)
  }

  ghost predicate AllShow(f: Key -> seq<ServiceEndpoint>, services: seq<Service>, keys: set<Key>) {
    forall i :: IsFirst(services, i) && services[i].key in keys ==> services[i].endpoints == f(services[i].key)
  }

  /** What shows the values of `f` shows those of `g` wherever the two agree. */
  lemma AllShowStays(f: Key -> seq<ServiceEndpoint>, g: Key -> seq<ServiceEndpoint>, services: seq<Service>,
                     keys: set<Key>, fewer: set<Key>)
    requires AllShow(f, services, keys) && fewer <= keys && forall k :: k in fewer ==> f(k) == g(k)
    ensures AllShow(g, services, fewer)
  {
  }

  lemma ShowsTheOther(f: Key -> seq<ServiceEndpoint>, g: Key -> seq<ServiceEndpoint>, services: seq<Service>,
                      keys: set<Key>, others: set<Key>, key: Key)
    requires AllShow(f, services, keys) && Present(services, key) && key in keys && key in others && f(key) != g(key)
    ensures !AllShow(g, services, others)
  {
    var i := FirstOf(services, key);
    assert services[i].endpoints == f(key) != g(services[i].key);
  }

  /** Every mark still waits or has been cleared, as the counters record until they saturate. */
  ghost predicate CountsBalance(r: Run) {
    Balanced(r.ctl, r.drained)
  }

  ghost predicate Balanced(ctl: ControllerState, drained: nat) {
    ctl.stats.updates < U64_MAX ==> ctl.stats.updates == ctl.stats.coalesced + |ctl.pending| + drained
  }

  lemma MarkingBalances(ctl: ControllerState, service: Key, drained: nat)
    requires Balanced(ctl, drained)
    ensures Balanced(Marked(ctl, service), drained)
  {
    if service !in ctl.pending {
      assert |ctl.pending + {service}| == |ctl.pending| + 1;
    } else {
      assert ctl.pending + {service} == ctl.pending;
    }
  }

  ghost predicate Structure(r: Run) {
    && r.ctl.pending <= r.touched
    && (forall k :: k in r.ctl.slices ==> r.ctl.slices[k].key == k && WellFormed(r.ctl.slices[k])
                                          && ServiceOf(r.ctl.slices[k]) in r.touched)
    && (forall k :: k in r.touched && k !in r.ctl.pending ==> Present(r.view.services, k))
    && CountsBalance(r)
  }

  ghost predicate Inv(r: Run) {
    Structure(r) && ViewExact(r)
  }

  lemma UpsertKeepsStructure(r: Run, slice: Slice)
    requires Structure(r)
    ensures Structure(Apply(r, Upsert(slice)))
  {
    if Accepts(r.ctl.slices, slice) { MarkingBalances(r.ctl, ServiceOf(slice), r.drained); }
  }

  lemma DeleteKeepsStructure(r: Run, key: Key)
    requires Structure(r)
    ensures Structure(Apply(r, Delete(key)))
  {
    if key in r.ctl.slices { MarkingBalances(r.ctl, ServiceOf(r.ctl.slices[key]), r.drained); }
  }

  lemma DeleteKeepsView(r: Run, key: Key)
    requires ViewExact(r)
    ensures ViewExact(Apply(r, Delete(key)))
  {
    if key in r.ctl.slices {
      var r' := Apply(r, Delete(key));
      var f, g, fewer := Recomputing(r.ctl.slices), Recomputing(r'.ctl.slices), r'.touched - r'.ctl.pending;
      forall k | k in fewer ensures f(k) == g(k) {
        RecomputeFrame(r.ctl.slices, r'.ctl.slices, k);
      }
      AllShowStays(f, g, r.view.services, r.touched - r.ctl.pending, fewer);
    }
  }

  /** Flushing changes which services are pending and their endpoints, not which are listed. */
  lemma FlushKeepsListing(r: Run)
    ensures
      var r' := Apply(r, Flush);
      && |r'.view.services| == |r.view.services|
      && (forall i :: 0 <= i < |r.view.services| ==> r'.view.services[i].key == r.view.services[i].key)
      && (forall i :: IsFirst(r'.view.services, i) <==> IsFirst(r.view.services, i))
      && (forall k :: Present(r'.view.services, k) <==> Present(r.view.services, k))
      && (forall k :: k in r'.ctl.pending <==> k in r.ctl.pending && !Present(r'.view.services, k))
  {
    var r' := Apply(r, Flush);
    FlushExact(r.ctl.slices, r.ctl.pending, r.view.services);
    var a, b := r.view.services, r'.view.services;
    assert forall i :: 0 <= i < |a| ==> b[i].key == a[i].key;
    forall k ensures Present(b, k) <==> Present(a, k) {
      if i :| 0 <= i < |a| && a[i].key == k { assert b[i].key == k; }
      if i :| 0 <= i < |b| && b[i].key == k { assert a[i].key == k; }
    }
  }

  lemma FlushKeepsStructure(r: Run)
    requires Structure(r)
    ensures Structure(Apply(r, Flush))
  {
    FlushKeepsListing(r);
    var before, after := r.ctl.pending, Apply(r, Flush).ctl.pending;
    assert after <= before;
    assert before == after + (before - after);
    assert |before| == |after| + |before - after|;
  }

  /** Right after a flush every listed touched service shows its recomputation. */
  lemma FlushShowsAll(r: Run)
    requires Inv(r)
    ensures
      var r' := Apply(r, Flush);
      forall i :: IsFirst(r'.view.services, i) && r'.view.services[i].key in r'.touched
                  ==> r'.view.services[i].endpoints == Recompute(r'.ctl.slices, r'.view.services[i].key)
  {
    FlushKeepsListing(r);
    FlushExact(r.ctl.slices, r.ctl.pending, r.view.services);
  }

  /** An unsafe upsert changes the recomputation of the service the slice leaves, and does not mark it. */
  lemma UnsafeUpsertChanges(ctl: ControllerState, slice: Slice)
    requires !SafeUpsert(ctl, slice)
    ensures
      var after, left := Upserted(ctl, slice), ServiceOf(ctl.slices[slice.key]);
      && Recomputing(ctl.slices)(left) != Recomputing(after.slices)(left)
      && after.pending == ctl.pending + {ServiceOf(slice)} && left !in after.pending
  {
    MovingAwayShortens(ctl.slices, ctl.slices[slice.key := slice], slice.key, ServiceOf(ctl.slices[slice.key]));
  }

  /**
   An upsert keeps the view exact precisely when it is safe. Only the slice's new service is marked
   dirty, so an unsafe one leaves its old service showing endpoints it no longer has.
   */
  lemma UpsertExactlyWhenSafe(r: Run, slice: Slice)
    requires Inv(r)
    ensures ViewExact(Apply(r, Upsert(slice))) <==> SafeUpsert(r.ctl, slice)
  {
    if SafeUpsert(r.ctl, slice) {
      SafeUpsertKeepsView(r, slice);
    } else {
      var r' := Apply(r, Upsert(slice));
      UnsafeUpsertChanges(r.ctl, slice);
      ShowsTheOther(Recomputing(r.ctl.slices), Recomputing(r'.ctl.slices), r.view.services,
                    r.touched - r.ctl.pending, r'.touched - r'.ctl.pending, ServiceOf(r.ctl.slices[slice.key]));
    }
  }

  /** A safe accepted upsert changes the recomputation of no service that it leaves unmarked. */
  lemma SafeUpsertLeaves(ctl: ControllerState, slice: Slice, k: Key)
    requires SafeUpsert(ctl, slice) && Accepts(ctl.slices, slice) && k != ServiceOf(slice) && k !in ctl.pending
    ensures Recompute(ctl.slices, k) == Recompute(ctl.slices[slice.key := slice], k)
  {
    var a, b := ctl.slices, ctl.slices[slice.key := slice];
    if slice.key in a && ServiceOf(a[slice.key]) == k {
      MovingAwayShortens(a, b, slice.key, k);
    } else {
      RecomputeFrame(a, b, k);
    }
  }

  lemma SafeUpsertKeepsView(r: Run, slice: Slice)
    requires Inv(r) && SafeUpsert(r.ctl, slice)
    ensures ViewExact(Apply(r, Upsert(slice)))
  {
    var r' := Apply(r, Upsert(slice));
    var a, b := r.ctl.slices, r'.ctl.slices;
    if Accepts(a, slice) {
      var f, g, fewer := Recomputing(a), Recomputing(b), r'.touched - r'.ctl.pending;
      forall k | k in fewer ensures f(k) == g(k) {
        SafeUpsertLeaves(r.ctl, slice, k);
      }
      AllShowStays(f, g, r.view.services, r.touched - r.ctl.pending, fewer);
    }
  }

  lemma FirstOf(services: seq<Service>, key: Key) returns (i: nat)
    requires Present(services, key)
    ensures IsFirst(services, i) && services[i].key == key
  {
    i := 0;
    while services[i].key != key
      invariant i < |services| && forall j :: 0 <= j < i ==> services[j].key != key
      decreases |services| - i
    {
      i := i + 1;
    }
  }

  ghost predicate SafeRun(r: Run, ops: seq<Op>)
    decreases ops
  {
    ops == [] || ((ops[0].Upsert? ==> SafeUpsert(r.ctl, ops[0].slice)) && SafeRun(Apply(r, ops[0]), ops[1..]))
  }

  lemma StepKeepsInv(r: Run, op: Op)
    requires Inv(r) && (op.Upsert? ==> SafeUpsert(r.ctl, op.slice))
    ensures Inv(Apply(r, op))
  {
    match op {
      case Upsert(slice) =>
        UpsertKeepsStructure(r, slice);
        UpsertExactlyWhenSafe(r, slice);
      case Delete(key) =>
        DeleteKeepsStructure(r, key);
        DeleteKeepsView(r, key);
      case Flush =>
        FlushKeepsStructure(r);
        FlushShowsAll(r);
    }
  }

  /** The view stays exact, and the counters balanced, over every run of safe operations. */
  lemma {:induction false} ViewMatchesRecomputation(r: Run, ops: seq<Op>)
    requires Inv(r) && SafeRun(r, ops)
    ensures Inv(After(r, ops))
    decreases ops
  {
    if ops != [] {
      StepKeepsInv(r, ops[0]);
      ViewMatchesRecomputation(Apply(r, ops[0]), ops[1..]);
    }
  }

  ghost function Start(view: Resources): Run {
    Run(ControllerState(map[], {}, Stats(0, 0, 0, 0, 0)), view, {}, 0)
  }

  /** Slices of one key never change service in these operations. */
  ghost predicate FixedServices(ops: seq<Op>, service: Key -> Key) {
    forall i :: 0 <= i < |ops| && ops[i].Upsert? ==> ServiceOf(ops[i].slice) == service(ops[i].slice.key)
  }

  lemma {:induction false} FixedServicesAreSafe(r: Run, ops: seq<Op>, service: Key -> Key)
    requires FixedServices(ops, service)
    requires forall k :: k in r.ctl.slices ==> r.ctl.slices[k].key == k && ServiceOf(r.ctl.slices[k]) == service(k)
    ensures SafeRun(r, ops)
    decreases ops
  {
    if ops != [] {
      assert forall i :: 0 <= i < |ops[1..]| ==> ops[1..][i] == ops[i + 1];
      FixedServicesAreSafe(Apply(r, ops[0]), ops[1..], service);
    }
  }

  /**
   From a fresh controller, if slices keep their service, then after any operations and a flush every
   service ever touched shows its recomputation, or is absent and still pending; and flushing again
   changes nothing at all.
   */
  lemma FlushedViewIsExact(view: Resources, ops: seq<Op>, service: Key -> Key)
    requires FixedServices(ops, service)
    ensures
      var r := Apply(After(Start(view), ops), Flush);
      && (forall k :: k in r.touched && !Present(r.view.services, k) ==> k in r.ctl.pending)
      && (forall i :: IsFirst(r.view.services, i) && r.view.services[i].key in r.touched ==>
            r.view.services[i].endpoints == Recompute(r.ctl.slices, r.view.services[i].key))
      && Flushed(r.ctl, r.view) == (r.ctl, r.view)
  {
    FixedServicesAreSafe(Start(view), ops, service);
    ViewMatchesRecomputation(Start(view), ops);
    var before := After(Start(view), ops);
    var r := Apply(before, Flush);
    FlushKeepsStructure(before);
    FlushShowsAll(before);
    FlushKeepsListing(before);
    FlushExact(r.ctl.slices, r.ctl.pending, r.view.services);
    assert FlushedServices(r.ctl.slices, r.ctl.pending, r.view.services).1 == r.view.services;
    assert FlushedServices(r.ctl.slices, r.ctl.pending, r.view.services).0 == r.ctl.pending;
  }

  // ----- replacing the resources between flushes -----

  /**
   Handing in other resources discards the maintained view: after the next flush a service shows its
   recomputation exactly when it was pending, or the resources handed in already did.
   */
  lemma ReplaceThenFlushExactly(ctl: ControllerState, replacement: Resources, i: int)
    requires IsFirst(replacement.services, i)
    ensures
      var key := replacement.services[i].key;
      Flushed(ctl, replacement).1.services[i].endpoints == Recompute(ctl.slices, key)
      <==> key in ctl.pending || replacement.services[i].endpoints == Recompute(ctl.slices, key)
  {
    FlushExact(ctl.slices, ctl.pending, replacement.services);
  }

  /** For example, one ready pod: handing the service in again without endpoints loses the pod for good. */
  lemma ReplacedResourcesExample()
    ensures
      var ctl := Apply(Apply(OneService(), Upsert(PodSlice("a", 1))), Flush).ctl;
      var shown := Flushed(ctl, OneService().view).1.services[0].endpoints;
      shown == [] && |Recompute(ctl.slices, Key("edge", "a"))| == 1
  {
    PodFlushed();
    PodRecomputed();
    var ctl := Apply(Apply(OneService(), Upsert(PodSlice("a", 1))), Flush).ctl;
    FlushExact(ctl.slices, ctl.pending, OneService().view.services);
  }

  lemma PodRecomputed()
    ensures |Recompute(map[Key("edge", "s") := PodSlice("a", 1)], Key("edge", "a"))| == 1
  {
    var slices, service := map[Key("edge", "s") := PodSlice("a", 1)], Key("edge", "a");
    var none: SliceMap := map[];
    PodIsLive("a", 1);
    MovingAwayShortens(slices, none, Key("edge", "s"), service);
    RecomputeMeaning(none, service);
    assert SlicesOf(none, service) == {};
    assert |multiset(Recompute(none, service))| == 0;
  }

  function PodSlice(serviceName: string, generation: nat): Slice {
    Slice(Key("edge", "s"), serviceName, generation, Ipv4, [80], [Endpoint("pod", [V4(1)], true, true, false)])
  }

  ghost function OneService(): Run {
    Start(Resources([Service(Key("edge", "a"), [80], [])], ""))
  }

  lemma PodIsLive(serviceName: string, generation: nat)
    ensures WellFormed(PodSlice(serviceName, generation)) && |LiveEndpoints(PodSlice(serviceName, generation))| == 1
  {
    var pod := Endpoint("pod", [V4(1)], true, true, false);
    assert LiveEndpoints(PodSlice(serviceName, generation)) == LiveAmong([80], [pod][..0]) + LiveOf([80], pod);
  }

  lemma PodUpserted()
    ensures
      var marked := Apply(OneService(), Upsert(PodSlice("a", 1)));
      && marked.ctl.slices == map[Key("edge", "s") := PodSlice("a", 1)] && marked.ctl.pending == {Key("edge", "a")}
      && marked.view == OneService().view
  {
    PodIsLive("a", 1);
  }

  lemma PodFlushed()
    ensures
      var r := Apply(Apply(OneService(), Upsert(PodSlice("a", 1))), Flush);
      && Inv(r) && r.ctl.slices == map[Key("edge", "s") := PodSlice("a", 1)] && r.ctl.pending == {}
      && Present(r.view.services, Key("edge", "a"))
  {
    PodUpserted();
    var marked := Apply(OneService(), Upsert(PodSlice("a", 1)));
    StepKeepsInv(OneService(), Upsert(PodSlice("a", 1)));
    StepKeepsInv(marked, Flush);
    assert OneService().view.services[0].key == Key("edge", "a");
    assert Present(marked.view.services, Key("edge", "a"));
    FlushKeepsListing(marked);
  }
}
