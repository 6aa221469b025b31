/**
 The EndpointSlice controller: it keeps the latest generation of every slice and a set of services
 whose endpoints must be recomputed, and rewrites only those on a flush.
 */
module EndpointSlices {
  import opened Basics
  import opened Ordering

  datatype AddressType = Ipv4 | Ipv6 | Fqdn

  datatype Endpoint = Endpoint(id: string, addresses: seq<Ip>, ready: bool, serving: bool, terminating: bool)

  datatype Slice = Slice(
    key: Key, serviceName: string, generation: nat, addressType: AddressType,
    ports: seq<nat>, endpoints: seq<Endpoint>)

  datatype ServiceEndpoint = ServiceEndpoint(id: string, ip: Ip, port: nat)

  datatype Service = Service(key: Key, ports: seq<nat>, endpoints: seq<ServiceEndpoint>)

  /** `gateways` stands for the gateway classes, gateways and routes, which a flush copies. */
  datatype Resources = Resources(services: seq<Service>, gateways: string)

  datatype ApplyError =
    | UnsupportedAddressType(slice: Key)
    | MissingPort(slice: Key)
    | MultiplePortsUnsupported(slice: Key)
    | EmptyEndpointAddresses(slice: Key, endpointId: string)
    | AddressFamilyMismatch(slice: Key, endpointId: string)

  datatype UpdateOutcome = Accepted | IgnoredStale

  datatype Stats = Stats(updates: nat, coalesced: nat, stale: nat, malformed: nat, flushes: nat)

  type SliceMap = map<Key, Slice>

  datatype ControllerState = ControllerState(slices: SliceMap, pending: set<Key>, stats: Stats)

  function ServiceOf(slice: Slice): Key {
    Key(slice.key.ns, slice.serviceName)
  }

  // ----- slice validation -----

  predicate FamilyMatches(kind: AddressType, ip: Ip) {
    (kind.Ipv4? && ip.V4?) || (kind.Ipv6? && ip.V6?)
  }

  predicate EndpointOk(slice: Slice, e: Endpoint) {
    e.addresses != [] && forall i :: 0 <= i < |e.addresses| ==> FamilyMatches(slice.addressType, e.addresses[i])
  }

  function EndpointFault(slice: Slice, e: Endpoint): ApplyError {
    if e.addresses == [] then EmptyEndpointAddresses(slice.key, e.id) else AddressFamilyMismatch(slice.key, e.id)
  }

  /** The slices the controller accepts. */
  predicate WellFormed(slice: Slice) {
    !slice.addressType.Fqdn? && |slice.ports| == 1
    && forall i :: 0 <= i < |slice.endpoints| ==> EndpointOk(slice, slice.endpoints[i])
  }

  /** Which fault of `slice` is reported: its shape first, then its first offending endpoint. */
  ghost predicate Reports(slice: Slice, error: ApplyError) {
    if slice.addressType.Fqdn? then error == UnsupportedAddressType(slice.key)
    else if slice.ports == [] then error == MissingPort(slice.key)
    else if |slice.ports| != 1 then error == MultiplePortsUnsupported(slice.key)
    else exists i :: 0 <= i < |slice.endpoints| && error == EndpointFault(slice, slice.endpoints[i])
                     && !EndpointOk(slice, slice.endpoints[i])
                     && forall j :: 0 <= j < i ==> EndpointOk(slice, slice.endpoints[j])
  }

  method ValidateSlice(slice: Slice) returns (r: Result<(), ApplyError>)
    ensures r.Ok? <==> WellFormed(slice)
    ensures r.Err? ==> Reports(slice, r.error)
  {
    if slice.addressType == Fqdn {
      return Err(UnsupportedAddressType(slice.key));
    }
    if slice.ports == [] {
      return Err(MissingPort(slice.key));
    }
    if |slice.ports| != 1 {
      return Err(MultiplePortsUnsupported(slice.key));
    }
    for i := 0 to |slice.endpoints|
      invariant forall j :: 0 <= j < i ==> EndpointOk(slice, slice.endpoints[j])
    {
      var endpoint := slice.endpoints[i];
      if endpoint.addresses == [] {
        return Err(EmptyEndpointAddresses(slice.key, endpoint.id));
      }
      for a := 0 to |endpoint.addresses|
        invariant forall b :: 0 <= b < a ==> FamilyMatches(slice.addressType, endpoint.addresses[b])
      {
        if !FamilyMatches(slice.addressType, endpoint.addresses[a]) {
          return Err(AddressFamilyMismatch(slice.key, endpoint.id));
        }
      }
    }
    return Ok(());
  }

  // ----- what a service's endpoints should be -----

  predicate IsLive(e: Endpoint) {
    e.ready && e.serving && !e.terminating
  }

  function LiveOf(ports: seq<nat>, e: Endpoint): seq<ServiceEndpoint> {
    if ports != [] && e.addresses != [] && IsLive(e)
    then [ServiceEndpoint(e.id, e.addresses[0], ports[0])] else []
  }

  function LiveAmong(ports: seq<nat>, es: seq<Endpoint>): seq<ServiceEndpoint> {
    if es == [] then [] else LiveAmong(ports, es[..|es| - 1]) + LiveOf(ports, es[|es| - 1])
  }

  function LiveEndpoints(slice: Slice): seq<ServiceEndpoint> {
    LiveAmong(slice.ports, slice.endpoints)
  }

  function LiveAt(slices: SliceMap, key: Key): seq<ServiceEndpoint> {
    if key in slices then LiveEndpoints(slices[key]) else []
  }

  /** The live endpoints of the slices stored under `keys`, slice by slice. */
  function Gather(slices: SliceMap, keys: seq<Key>): seq<ServiceEndpoint> {
    if keys == [] then [] else Gather(slices, keys[..|keys| - 1]) + LiveAt(slices, keys[|keys| - 1])
  }

  function SlicesOf(slices: SliceMap, service: Key): set<Key> {
    set k | k in slices && ServiceOf(slices[k]) == service
  }

  function KeysOf(slices: SliceMap, service: Key): (ks: seq<Key>)
    ensures forall k :: k in ks <==> k in SlicesOf(slices, service)
    ensures forall i :: 0 <= i < |ks| ==> ks[i] in slices && ServiceOf(slices[ks[i]]) == service
  {
    SortedKeys(SlicesOf(slices, service))
  }

  predicate ById(a: ServiceEndpoint, b: ServiceEndpoint) {
    StrLeq(a.id, b.id)
  }

  /** A full recomputation: the live endpoints of all the service's slices, sorted by id. */
  function Recompute(slices: SliceMap, service: Key): seq<ServiceEndpoint> {
    Sort(Gather(slices, KeysOf(slices, service)), ById)
  }

  // ----- the controller's operations -----

  predicate Accepts(slices: SliceMap, slice: Slice) {
    WellFormed(slice) && (slice.key in slices ==> slice.generation > slices[slice.key].generation)
  }

  /** Marking a service dirty, counting the update and whether it joined an earlier one. */
  function Marked(st: ControllerState, service: Key): ControllerState {
    st.(pending := st.pending + {service},
        stats := st.stats.(updates := SatAdd(st.stats.updates, 1),
                           coalesced := if service in st.pending then SatAdd(st.stats.coalesced, 1)
                                        else st.stats.coalesced))
  }

  function Upserted(st: ControllerState, slice: Slice): ControllerState {
    if !WellFormed(slice) then st.(stats := st.stats.(malformed := SatAdd(st.stats.malformed, 1)))
    else if !Accepts(st.slices, slice) then st.(stats := st.stats.(stale := SatAdd(st.stats.stale, 1)))
    else Marked(st, ServiceOf(slice)).(slices := st.slices[slice.key := slice])
  }

  function Deleted(st: ControllerState, key: Key): ControllerState {
    if key in st.slices then Marked(st, ServiceOf(st.slices[key])).(slices := st.slices - {key}) else st
  }

  /** The services in order: each takes its key out of the pending set and is recomputed if it was there. */
  function FlushedServices(slices: SliceMap, pending: set<Key>, services: seq<Service>): (r: (set<Key>, seq<Service>))
    ensures |r.1| == |services|
  {
    if services == [] then (pending, [])
    else
      var last := |services| - 1;
      var (left, done) := FlushedServices(slices, pending, services[..last]);
      var s := services[last];
      if s.key in left then (left - {s.key}, done + [s.(endpoints := Recompute(slices, s.key))])
      else (left, done + [s])
  }

  function Flushed(st: ControllerState, resources: Resources): (ControllerState, Resources) {
    var (left, done) := FlushedServices(st.slices, st.pending, resources.services);
    (st.(pending := left,
         stats := if left == st.pending then st.stats else st.stats.(flushes := SatAdd(st.stats.flushes, 1))),
     resources.(services := done))
  }

  class EndpointSliceController {
    var slices: SliceMap
    var pendingServices: set<Key>
    var stats: Stats

    ghost function Model(): ControllerState
      reads this
    {
      ControllerState(slices, pendingServices, stats)
    }

    constructor ()
      ensures Model() == ControllerState(map[], {}, Stats(0, 0, 0, 0, 0))
    {
      slices, pendingServices, stats := map[], {}, Stats(0, 0, 0, 0, 0);
    }

    method MarkPending(service: Key)
      modifies this
      ensures Model() == Marked(old(Model()), service)
    {
      if service in pendingServices {
        stats := stats.(coalesced := SatAdd(stats.coalesced, 1));
      } else {
        pendingServices := pendingServices + {service};
      }
      stats := stats.(updates := SatAdd(stats.updates, 1));
      assert pendingServices == old(pendingServices) + {service};
    }

    method UpsertSlice(slice: Slice) returns (r: Result<UpdateOutcome, ApplyError>)
      modifies this
      ensures Model() == Upserted(old(Model()), slice)
      ensures r.Err? <==> !WellFormed(slice)
      ensures r.Err? ==> Reports(slice, r.error)
      ensures r.Ok? ==> r.value == if Accepts(old(slices), slice) then Accepted else IgnoredStale
    {
      var valid := ValidateSlice(slice);
      if valid.Err? {
        stats := stats.(malformed := SatAdd(stats.malformed, 1));
        return Err(valid.error);
      }
      if slice.key in slices && slice.generation <= slices[slice.key].generation {
        stats := stats.(stale := SatAdd(stats.stale, 1));
        return Ok(IgnoredStale);
      }
      MarkPending(ServiceOf(slice));
      slices := slices[slice.key := slice];
      return Ok(Accepted);
    }

    method DeleteSlice(key: Key) returns (removed: bool)
      modifies this
      ensures Model() == Deleted(old(Model()), key)
      ensures removed <==> key in old(slices)
    {
      removed := key in slices;
      if removed {
        var slice := slices[key];
        slices := slices - {key};
        MarkPending(ServiceOf(slice));
      }
    }

    method FlushInto(resources: Resources) returns (next: Resources)
      modifies this
      ensures (Model(), next) == Flushed(old(Model()), resources)
    {
      var services := resources.services;
      var done: seq<Service> := [];
      var flushedAny := false;
      for i := 0 to |services|
        invariant slices == old(slices) && stats == old(stats)
        invariant (pendingServices, done) == FlushedServices(slices, old(pendingServices), services[..i])
        invariant pendingServices <= old(pendingServices)
        invariant flushedAny <==> pendingServices != old(pendingServices)
      {
        assert services[..i + 1][..i] == services[..i];
        var service := services[i];
        if service.key in pendingServices {
          pendingServices := pendingServices - {service.key};
          flushedAny := true;
          var endpoints := CurrentEndpoints(slices, service.key);
          service := service.(endpoints := endpoints);
        }
        done := done + [service];
      }
      assert services[..|services|] == services;
      if flushedAny {
        stats := stats.(flushes := SatAdd(stats.flushes, 1));
      }
      next := resources.(services := done);
    }
  }

  function KeepService(slices: SliceMap, keys: seq<Key>, service: Key): (kept: seq<Key>)
    requires forall i :: 0 <= i < |keys| ==> keys[i] in slices
    ensures forall i :: 0 <= i < |kept| ==> kept[i] in slices
  {
    if keys == [] then []
    else
      var last := |keys| - 1;
      KeepService(slices, keys[..last], service)
      + if ServiceOf(slices[keys[last]]) == service then [keys[last]] else []
  }

  lemma KeepServiceStep(slices: SliceMap, keys: seq<Key>, i: nat, service: Key)
    requires i < |keys| && forall j :: 0 <= j < |keys| ==> keys[j] in slices
    ensures KeepService(slices, keys[..i + 1], service)
            == KeepService(slices, keys[..i], service) + if ServiceOf(slices[keys[i]]) == service then [keys[i]] else []
  {
    assert keys[..i + 1][..i] == keys[..i];
  }

  lemma GatherStep(slices: SliceMap, keys: seq<Key>, i: nat)
    requires i < |keys|
    ensures Gather(slices, keys[..i + 1]) == Gather(slices, keys[..i]) + LiveAt(slices, keys[i])
  {
    assert keys[..i + 1][..i] == keys[..i];
  }

  lemma LiveAmongStep(ports: seq<nat>, es: seq<Endpoint>, i: nat)
    requires i < |es|
    ensures LiveAmong(ports, es[..i + 1]) == LiveAmong(ports, es[..i]) + LiveOf(ports, es[i])
  {
    assert es[..i + 1][..i] == es[..i];
  }

  lemma {:induction false} KeepServiceSelects(slices: SliceMap, keys: seq<Key>, service: Key)
    requires forall i :: 0 <= i < |keys| ==> keys[i] in slices
    ensures forall k :: k in KeepService(slices, keys, service) <==> k in keys && ServiceOf(slices[k]) == service
    decreases |keys|
  {
    if keys != [] {
      var last := |keys| - 1;
      KeepServiceSelects(slices, keys[..last], service);
      assert keys == keys[..last] + [keys[last]];
    }
  }

  lemma {:induction false} KeepServiceSorted(slices: SliceMap, keys: seq<Key>, service: Key)
    requires forall i :: 0 <= i < |keys| ==> keys[i] in slices
    requires StrictlySorted(keys, KeyLeq)
    ensures StrictlySorted(KeepService(slices, keys, service), KeyLeq)
    decreases |keys|
  {
    if keys != [] {
      var front, last := keys[..|keys| - 1], keys[|keys| - 1];
      KeepServiceSorted(slices, front, service);
      KeepServiceSelects(slices, front, service);
      var kept := KeepService(slices, front, service);
      forall i | 0 <= i < |kept| ensures KeyLeq(kept[i], last) && kept[i] != last {
        assert kept[i] in front;
        var j :| 0 <= j < |front| && front[j] == kept[i];
        assert keys[j] == kept[i];
      }
    }
  }

  /** Selecting a service's slices from the whole ordered map lists them in their own order. */
  lemma ScanSelectsService(slices: SliceMap, service: Key)
    ensures KeepService(slices, SortedKeys(slices.Keys), service) == KeysOf(slices, service)
  {
    KeyOrder();
    var keys := SortedKeys(slices.Keys);
    KeepServiceSelects(slices, keys, service);
    KeepServiceSorted(slices, keys, service);
    EnumerationUnique(KeepService(slices, keys, service), KeysOf(slices, service), KeyLeq);
  }

  /** Scans all slices in key order, keeping those of one service, then sorts by endpoint id. */
  method CurrentEndpoints(slices: SliceMap, service: Key) returns (endpoints: seq<ServiceEndpoint>)
    ensures endpoints == Recompute(slices, service)
  {
    var keys := SortedKeys(slices.Keys);
    ScanSelectsService(slices, service);
    endpoints := GatherService(slices, keys, service);
    endpoints := Sort(endpoints, ById);
  }

  method GatherService(slices: SliceMap, keys: seq<Key>, service: Key) returns (endpoints: seq<ServiceEndpoint>)
    requires forall i :: 0 <= i < |keys| ==> keys[i] in slices
    ensures endpoints == Gather(slices, KeepService(slices, keys, service))
  {
    endpoints := [];
    for i := 0 to |keys|
      invariant endpoints == Gather(slices, KeepService(slices, keys[..i], service))
    {
      var slice := slices[keys[i]];
      ghost var kept := KeepService(slices, keys[..i], service);
      assert keys[..i + 1][..i] == keys[..i];
      if ServiceOf(slice) == service {
        var live := LiveOfSlice(slice);
        endpoints := endpoints + live;
        assert (kept + [keys[i]])[..|kept|] == kept;
        assert KeepService(slices, keys[..i + 1], service) == kept + [keys[i]];
      } else {
        assert KeepService(slices, keys[..i + 1], service) == kept;
      }
    }
    assert keys[..|keys|] == keys;
  }

  method LiveOfSlice(slice: Slice) returns (live: seq<ServiceEndpoint>)
    ensures live == LiveEndpoints(slice)
  {
    live := [];
    for i := 0 to |slice.endpoints|
      invariant live == LiveAmong(slice.ports, slice.endpoints[..i])
    {
      var endpoint := slice.endpoints[i];
      assert slice.endpoints[..i + 1][..i] == slice.endpoints[..i];
      if slice.ports != [] && endpoint.addresses != []
         && !(!endpoint.ready || !endpoint.serving || endpoint.terminating) {
        live := live + [ServiceEndpoint(endpoint.id, endpoint.addresses[0], slice.ports[0])];
      }
    }
    assert slice.endpoints[..|slice.endpoints|] == slice.endpoints;
  }
}
