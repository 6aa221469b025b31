/** The second way endpoints leave the controller: runtime discovery snapshots, one per service. */
module EndpointDiscovery {
  import opened Basics
  import opened Ordering
  import opened EndpointSlices

  /** The cluster name is made of the namespace, service and `port`, so it is never blank. */
  datatype DiscoverySnapshot = DiscoverySnapshot(
    service: Key, port: nat, generation: nat, endpoints: seq<ServiceEndpoint>)

  datatype BuildError = InvalidEndpointId(service: Key, endpointId: string)

  predicate ValidId(id: string) {
    Trim(id) != []
  }

  function ServicesOf(slices: SliceMap): set<Key> {
    set k | k in slices :: ServiceOf(slices[k])
  }

  /** Adding endpoints to an index; a later one replaces an earlier one with the same id. */
  function Overlaid(index: map<string, ServiceEndpoint>, es: seq<ServiceEndpoint>): map<string, ServiceEndpoint> {
    if es == [] then index else Overlaid(index, es[..|es| - 1])[es[|es| - 1].id := es[|es| - 1]]
  }

  function IndexById(es: seq<ServiceEndpoint>): map<string, ServiceEndpoint> {
    Overlaid(map[], es)
  }

  /** The values of an index in the order of their ids. */
  function InIdOrder(index: map<string, ServiceEndpoint>): (es: seq<ServiceEndpoint>)
    ensures |es| == |index|
  {
    StrOrder();
    var ids := Enumerate(index.Keys, StrLeq);
    assert forall i :: 0 <= i < |ids| ==> ids[i] in index by {
      assert forall i :: 0 <= i < |ids| ==> ids[i] in ids;
    }
    seq(|ids|, i requires 0 <= i < |ids| => index[ids[i]])
  }

  function MaxGeneration(slices: SliceMap, keys: seq<Key>): nat
    requires forall i :: 0 <= i < |keys| ==> keys[i] in slices
  {
    if keys == [] then 0
    else
      var last := |keys| - 1;
      var before := MaxGeneration(slices, keys[..last]);
      if slices[keys[last]].ports == [] then before else Max(before, slices[keys[last]].generation)
  }

  function LastPort(slices: SliceMap, keys: seq<Key>): nat
    requires forall i :: 0 <= i < |keys| ==> keys[i] in slices
  {
    if keys == [] then 0
    else
      var last := slices[keys[|keys| - 1]];
      if last.ports == [] then LastPort(slices, keys[..|keys| - 1]) else last.ports[0]
  }

  function SnapshotOf(slices: SliceMap, service: Key): DiscoverySnapshot {
    var keys := KeysOf(slices, service);
    DiscoverySnapshot(service, LastPort(slices, keys), MaxGeneration(slices, keys),
                      InIdOrder(IndexById(Gather(slices, keys))))
  }

  /** The first blank id, in order. */
  function FirstBlank(es: seq<ServiceEndpoint>): Option<string> {
    if es == [] then None
    else match FirstBlank(es[..|es| - 1])
      case Some(id) => Some(id)
      case None => if ValidId(es[|es| - 1].id) then None else Some(es[|es| - 1].id)
  }

  /** One service's snapshot, or the first blank id among its live endpoints. */
  function Built(slices: SliceMap, service: Key): Result<DiscoverySnapshot, BuildError> {
    match FirstBlank(Gather(slices, KeysOf(slices, service)))
    case None => Ok(SnapshotOf(slices, service))
    case Some(id) => Err(InvalidEndpointId(service, id))
  }

  function Builder(slices: SliceMap): Key -> Result<DiscoverySnapshot, BuildError> {
    service => Built(slices, service)
  }

  /** All snapshots in service order, or what fails the first service that fails. */
  function BuiltAll(slices: SliceMap): Result<seq<DiscoverySnapshot>, BuildError> {
    Collect(SortedKeys(ServicesOf(slices)), Builder(slices))
  }

  // ----- building, loop by loop -----

  lemma OverlaidSnoc(index: map<string, ServiceEndpoint>, es: seq<ServiceEndpoint>, x: ServiceEndpoint)
    ensures Overlaid(index, es + [x]) == Overlaid(index, es)[x.id := x]
  {
    assert (es + [x])[..|es|] == es;
  }

  lemma {:induction false} OverlaidSplit(index: map<string, ServiceEndpoint>, p: seq<ServiceEndpoint>,
                                         q: seq<ServiceEndpoint>)
    ensures Overlaid(index, p + q) == Overlaid(Overlaid(index, p), q)
    decreases |q|
  {
    if q == [] {
      assert p + q == p;
    } else {
      OverlaidSplit(index, p, q[..|q| - 1]);
      assert (p + q)[..|p + q| - 1] == p + q[..|q| - 1];
    }
  }

  ghost predicate Grouped(slices: SliceMap, keys: seq<Key>, groups: map<Key, seq<Key>>)
    requires forall i :: 0 <= i < |keys| ==> keys[i] in slices
  {
    && (forall s :: s in groups <==> KeepService(slices, keys, s) != [])
    && (forall s :: s in groups ==> groups[s] == KeepService(slices, keys, s))
  }

  lemma GroupedStep(slices: SliceMap, keys: seq<Key>, i: nat, groups: map<Key, seq<Key>>)
    requires i < |keys| && forall j :: 0 <= j < |keys| ==> keys[j] in slices
    requires Grouped(slices, keys[..i], groups)
    ensures
      var service := ServiceOf(slices[keys[i]]);
      var group := if service in groups then groups[service] else [];
      Grouped(slices, keys[..i + 1], groups[service := group + [keys[i]]])
  {
    var service := ServiceOf(slices[keys[i]]);
    var group := if service in groups then groups[service] else [];
    var groups' := groups[service := group + [keys[i]]];
    forall s ensures (s in groups' <==> KeepService(slices, keys[..i + 1], s) != [])
                     && (s in groups' ==> groups'[s] == KeepService(slices, keys[..i + 1], s))
    {
      KeepServiceStep(slices, keys, i, s);
    }
  }

  /** Groups the slices by service in key order. */
  method GroupByService(slices: SliceMap) returns (groups: map<Key, seq<Key>>)
    ensures groups.Keys == ServicesOf(slices)
    ensures forall s :: s in groups ==> groups[s] == KeysOf(slices, s)
  {
    var keys := SortedKeys(slices.Keys);
    groups := GroupKeys(slices, keys);
    forall s ensures KeepService(slices, keys, s) == KeysOf(slices, s)
                     && (KeysOf(slices, s) != [] <==> s in ServicesOf(slices))
    {
      GroupComplete(slices, s);
    }
  }

  method GroupKeys(slices: SliceMap, keys: seq<Key>) returns (groups: map<Key, seq<Key>>)
    requires forall j :: 0 <= j < |keys| ==> keys[j] in slices
    ensures Grouped(slices, keys, groups)
  {
    groups := map[];
    for i := 0 to |keys|
      invariant Grouped(slices, keys[..i], groups)
    {
      var service := ServiceOf(slices[keys[i]]);
      GroupedStep(slices, keys, i, groups);
      var group := if service in groups then groups[service] else [];
      groups := groups[service := group + [keys[i]]];
    }
    assert keys[..|keys|] == keys;
  }

  lemma GroupComplete(slices: SliceMap, service: Key)
    ensures KeepService(slices, SortedKeys(slices.Keys), service) == KeysOf(slices, service)
    ensures KeysOf(slices, service) != [] <==> service in ServicesOf(slices)
  {
    ScanSelectsService(slices, service);
    var ks := KeysOf(slices, service);
    if service in ServicesOf(slices) {
      var k :| k in slices && ServiceOf(slices[k]) == service;
      assert k in SlicesOf(slices, service) && k in ks;
    }
    if ks != [] {
      assert ks[0] in slices && ServiceOf(slices[ks[0]]) == service;
    }
  }

  lemma FirstBlankSnoc(es: seq<ServiceEndpoint>, x: ServiceEndpoint)
    ensures FirstBlank(es + [x])
            == if FirstBlank(es).Some? then FirstBlank(es) else if ValidId(x.id) then None else Some(x.id)
  {
    assert (es + [x])[..|es|] == es;
  }

  lemma {:induction false} FirstBlankSplit(p: seq<ServiceEndpoint>, q: seq<ServiceEndpoint>)
    ensures FirstBlank(p + q) == if FirstBlank(p).Some? then FirstBlank(p) else FirstBlank(q)
    decreases |q|
  {
    if q == [] {
      assert p + q == p;
    } else {
      var front, x := q[..|q| - 1], q[|q| - 1];
      FirstBlankSplit(p, front);
      FirstBlankSnoc(p + front, x);
      FirstBlankSnoc(front, x);
      assert p + q == p + front + [x] && q == front + [x];
    }
  }

  lemma {:induction false} LiveBlankStays(ports: seq<nat>, es: seq<Endpoint>, i: nat)
    requires i <= |es| && FirstBlank(LiveAmong(ports, es[..i])).Some?
    ensures FirstBlank(LiveAmong(ports, es)) == FirstBlank(LiveAmong(ports, es[..i]))
    decreases |es|
  {
    if i < |es| {
      var front := es[..|es| - 1];
      assert front[..i] == es[..i];
      LiveBlankStays(ports, front, i);
      FirstBlankSplit(LiveAmong(ports, front), LiveOf(ports, es[|es| - 1]));
    } else {
      assert es[..i] == es;
    }
  }

  lemma {:induction false} GatherBlankStays(slices: SliceMap, keys: seq<Key>, i: nat)
    requires i <= |keys| && FirstBlank(Gather(slices, keys[..i])).Some?
    ensures FirstBlank(Gather(slices, keys)) == FirstBlank(Gather(slices, keys[..i]))
    decreases |keys|
  {
    if i < |keys| {
      var front := keys[..|keys| - 1];
      assert front[..i] == keys[..i];
      GatherBlankStays(slices, front, i);
      FirstBlankSplit(Gather(slices, front), LiveAt(slices, keys[|keys| - 1]));
    } else {
      assert keys[..i] == keys;
    }
  }

  /** Adds one slice's live endpoints to the index, or stops at the first blank id. */
  method IndexSlice(slice: Slice, before: map<string, ServiceEndpoint>)
    returns (r: Result<map<string, ServiceEndpoint>, string>)
    requires slice.ports != []
    ensures r == match FirstBlank(LiveEndpoints(slice))
                 case None => Ok(Overlaid(before, LiveEndpoints(slice)))
                 case Some(id) => Err(id)
  {
    var index := before;
    var es := slice.endpoints;
    for i := 0 to |es|
      invariant index == Overlaid(before, LiveAmong(slice.ports, es[..i]))
      invariant FirstBlank(LiveAmong(slice.ports, es[..i])) == None
    {
      LiveAmongStep(slice.ports, es, i);
      ghost var live := LiveAmong(slice.ports, es[..i]);
      var endpoint := es[i];
      if !endpoint.ready || !endpoint.serving || endpoint.terminating || endpoint.addresses == [] {
        assert live + [] == live;
        continue;
      }
      var x := ServiceEndpoint(endpoint.id, endpoint.addresses[0], slice.ports[0]);
      FirstBlankSnoc(live, x);
      if !ValidId(endpoint.id) {
        LiveBlankStays(slice.ports, es, i + 1);
        return Err(endpoint.id);
      }
      OverlaidSnoc(before, live, x);
      index := index[endpoint.id := x];
    }
    assert es[..|es|] == es;
    r := Ok(index);
  }

  datatype Scan = Scan(generation: nat, port: nat, index: map<string, ServiceEndpoint>)

  /** What the slices under some keys come to. */
  function Scanned(slices: SliceMap, keys: seq<Key>): Scan
    requires forall i :: 0 <= i < |keys| ==> keys[i] in slices
  {
    Scan(MaxGeneration(slices, keys), LastPort(slices, keys), IndexById(Gather(slices, keys)))
  }

  lemma NumbersStep(slices: SliceMap, keys: seq<Key>, i: nat)
    requires i < |keys| && forall j :: 0 <= j < |keys| ==> keys[j] in slices
    ensures MaxGeneration(slices, keys[..i + 1])
            == if slices[keys[i]].ports == [] then MaxGeneration(slices, keys[..i])
               else Max(MaxGeneration(slices, keys[..i]), slices[keys[i]].generation)
    ensures LastPort(slices, keys[..i + 1])
            == if slices[keys[i]].ports == [] then LastPort(slices, keys[..i]) else slices[keys[i]].ports[0]
  {
    assert keys[..i + 1][..i] == keys[..i];
  }

  lemma IndexStep(slices: SliceMap, keys: seq<Key>, i: nat)
    requires i < |keys|
    ensures IndexById(Gather(slices, keys[..i + 1]))
            == Overlaid(IndexById(Gather(slices, keys[..i])), LiveAt(slices, keys[i]))
  {
    GatherStep(slices, keys, i);
    OverlaidSplit(map[], Gather(slices, keys[..i]), LiveAt(slices, keys[i]));
  }

  /** One more slice, whose live endpoints `index` already includes. */
  lemma ScannedStep(slices: SliceMap, keys: seq<Key>, i: nat, index: map<string, ServiceEndpoint>)
    requires i < |keys| && forall j :: 0 <= j < |keys| ==> keys[j] in slices
    requires index == Overlaid(Scanned(slices, keys[..i]).index, LiveAt(slices, keys[i]))
    ensures
      var slice, was := slices[keys[i]], Scanned(slices, keys[..i]);
      Scanned(slices, keys[..i + 1]) ==
        if slice.ports == [] then was else Scan(Max(was.generation, slice.generation), slice.ports[0], index)
  {
    NumbersStep(slices, keys, i);
    IndexStep(slices, keys, i);
    if slices[keys[i]].ports == [] { NoPortsNoneLive(slices[keys[i]].endpoints); }
  }

  lemma BlankStep(slices: SliceMap, keys: seq<Key>, i: nat)
    requires i < |keys| && FirstBlank(Gather(slices, keys[..i])) == None
    ensures FirstBlank(Gather(slices, keys[..i + 1])) == FirstBlank(LiveAt(slices, keys[i]))
    ensures FirstBlank(LiveAt(slices, keys[i])).Some? ==>
      FirstBlank(Gather(slices, keys)) == FirstBlank(LiveAt(slices, keys[i]))
  {
    GatherStep(slices, keys, i);
    FirstBlankSplit(Gather(slices, keys[..i]), LiveAt(slices, keys[i]));
    if FirstBlank(LiveAt(slices, keys[i])).Some? { GatherBlankStays(slices, keys, i + 1); }
  }

  /** Takes in one slice of a service. */
  method ScanOne(slices: SliceMap, keys: seq<Key>, i: nat, scan: Scan) returns (r: Result<Scan, string>)
    requires i < |keys| && forall j :: 0 <= j < |keys| ==> keys[j] in slices
    requires scan == Scanned(slices, keys[..i])
    ensures r == match FirstBlank(LiveAt(slices, keys[i]))
                 case None => Ok(Scanned(slices, keys[..i + 1]))
                 case Some(id) => Err(id)
  {
    var slice := slices[keys[i]];
    ScannedStep(slices, keys, i, Overlaid(scan.index, LiveAt(slices, keys[i])));
    if slice.ports == [] {
      NoPortsNoneLive(slice.endpoints);
      return Ok(scan);
    }
    var step := IndexSlice(slice, scan.index);
    match step {
      case Err(id) => r := Err(id);
      case Ok(index) => r := Ok(Scan(Max(scan.generation, slice.generation), slice.ports[0], index));
    }
  }

  /** Goes through a service's slices, or stops at the first live endpoint whose id is blank. */
  method ScanSlices(slices: SliceMap, keys: seq<Key>) returns (r: Result<Scan, string>)
    requires forall i :: 0 <= i < |keys| ==> keys[i] in slices
    ensures r == match FirstBlank(Gather(slices, keys))
                 case None => Ok(Scanned(slices, keys))
                 case Some(id) => Err(id)
  {
    var scan := Scan(0, 0, map[]);
    for i := 0 to |keys|
      invariant scan == Scanned(slices, keys[..i]) && FirstBlank(Gather(slices, keys[..i])) == None
    {
      BlankStep(slices, keys, i);
      var step := ScanOne(slices, keys, i, scan);
      if step.Err? {
        return Err(step.error);
      }
      scan := step.value;
    }
    assert keys[..|keys|] == keys;
    r := Ok(scan);
  }

  method BuildOne(slices: SliceMap, service: Key, keys: seq<Key>) returns (r: Result<DiscoverySnapshot, BuildError>)
    requires keys == KeysOf(slices, service)
    ensures r == Built(slices, service)
  {
    var scan := ScanSlices(slices, keys);
    if scan.Err? {
      return Err(InvalidEndpointId(service, scan.error));
    }
    r := Ok(DiscoverySnapshot(service, scan.value.port, scan.value.generation, InIdOrder(scan.value.index)));
  }

  /** All snapshots, in service order; the first blank live endpoint id fails the whole build. */
  method BuildDiscoverySnapshots(slices: SliceMap) returns (r: Result<seq<DiscoverySnapshot>, BuildError>)
    ensures r == BuiltAll(slices)
  {
    var groups := GroupByService(slices);
    var services := SortedKeys(groups.Keys);
    r := BuildEach(slices, services, groups);
  }

  method BuildEach(slices: SliceMap, services: seq<Key>, groups: map<Key, seq<Key>>)
    returns (r: Result<seq<DiscoverySnapshot>, BuildError>)
    requires forall s :: s in services ==> s in groups && groups[s] == KeysOf(slices, s)
    ensures r == Collect(services, Builder(slices))
  {
    ghost var one := Builder(slices);
    var snapshots: seq<DiscoverySnapshot> := [];
    for i := 0 to |services|
      invariant Collect(services[..i], one) == Ok(snapshots)
    {
      assert services[..i + 1][..i] == services[..i];
      assert services[i] in services;
      var built := BuildOne(slices, services[i], groups[services[i]]);
      if built.Err? {
        CollectStops(services, one, i + 1);
        return Err(built.error);
      }
      snapshots := snapshots + [built.value];
    }
    assert services[..|services|] == services;
    r := Ok(snapshots);
  }

  /** The first blank id is one, and every id before it is not. */
  lemma {:induction false} FirstBlankMeaning(es: seq<ServiceEndpoint>)
    ensures FirstBlank(es) == None <==> forall i :: 0 <= i < |es| ==> ValidId(es[i].id)
    ensures FirstBlank(es).Some? ==>
      exists i :: 0 <= i < |es| && es[i].id == FirstBlank(es).value && !ValidId(es[i].id)
                  && forall j :: 0 <= j < i ==> ValidId(es[j].id)
    decreases |es|
  {
    if es != [] {
      var front, n := es[..|es| - 1], |es| - 1;
      FirstBlankMeaning(front);
      assert forall i :: 0 <= i < n ==> front[i] == es[i];
      if FirstBlank(front).Some? {
        var i :| 0 <= i < n && front[i].id == FirstBlank(front).value && !ValidId(front[i].id)
                 && forall j :: 0 <= j < i ==> ValidId(front[j].id);
        assert es[i].id == FirstBlank(es).value && forall j :: 0 <= j < i ==> ValidId(es[j].id);
      }
    }
  }

  lemma {:induction false} GatherBlankMeaning(slices: SliceMap, keys: seq<Key>)
    ensures FirstBlank(Gather(slices, keys)) == None <==>
      forall k :: k in keys ==> FirstBlank(LiveAt(slices, k)) == None
    decreases |keys|
  {
    if keys != [] {
      var front, last := keys[..|keys| - 1], keys[|keys| - 1];
      GatherBlankMeaning(slices, front);
      FirstBlankSplit(Gather(slices, front), LiveAt(slices, last));
      assert keys == front + [last];
    }
  }

  /** No slice of the service has a live endpoint with a blank id. */
  ghost predicate NoBlanks(slices: SliceMap, service: Key) {
    forall k :: k in slices && ServiceOf(slices[k]) == service ==> FirstBlank(LiveAt(slices, k)) == None
  }

  lemma BuiltWithoutBlanks(slices: SliceMap, service: Key)
    ensures Builder(slices)(service).Ok? <==> NoBlanks(slices, service)
  {
    var keys := KeysOf(slices, service);
    GatherBlankMeaning(slices, keys);
    assert forall k :: k in keys <==> k in slices && ServiceOf(slices[k]) == service;
  }

  lemma CollectsWithoutBlanks(slices: SliceMap, services: seq<Key>, one: Key -> Result<DiscoverySnapshot, BuildError>)
    requires forall s :: one(s).Ok? <==> NoBlanks(slices, s)
    ensures Collect(services, one).Ok? <==> forall s :: s in services ==> NoBlanks(slices, s)
  {
    CollectMeaning(services, one);
    assert forall i :: 0 <= i < |services| ==> services[i] in services;
  }

  /** The build succeeds exactly when no slice has a live endpoint with a blank id. */
  lemma BuildSucceedsExactly(slices: SliceMap)
    ensures BuiltAll(slices).Ok? <==> forall k :: k in slices ==> FirstBlank(LiveAt(slices, k)) == None
  {
    var services := SortedKeys(ServicesOf(slices));
    forall s { BuiltWithoutBlanks(slices, s); }
    CollectsWithoutBlanks(slices, services, Builder(slices));
    forall k | k in slices ensures ServiceOf(slices[k]) in services {
      assert ServiceOf(slices[k]) in ServicesOf(slices);
    }
  }

  lemma {:induction false} NoPortsNoneLive(es: seq<Endpoint>)
    ensures LiveAmong([], es) == []
  {
    if es != [] { NoPortsNoneLive(es[..|es| - 1]); }
  }

  // ----- the two paths agree -----

  predicate UniqueIds(es: seq<ServiceEndpoint>) {
    forall i, j :: 0 <= i < j < |es| ==> es[i].id != es[j].id
  }

  predicate Mentions(es: seq<ServiceEndpoint>, id: string) {
    exists i :: 0 <= i < |es| && es[i].id == id
  }

  lemma UniqueCons(x: ServiceEndpoint, q: seq<ServiceEndpoint>)
    ensures UniqueIds([x] + q) <==> UniqueIds(q) && !Mentions(q, x.id)
  {
    var all := [x] + q;
    assert forall i :: 0 <= i < |q| ==> q[i] == all[i + 1];
    assert forall j :: 0 < j < |all| ==> all[j] == q[j - 1];
    if UniqueIds(all) {
      forall i, j | 0 <= i < j < |q| ensures q[i].id != q[j].id {
        assert all[i + 1].id != all[j + 1].id;
      }
      assert forall j :: 0 < j < |all| ==> all[0].id != all[j].id;
    }
  }

  lemma {:induction false} InsertMentions(x: ServiceEndpoint, q: seq<ServiceEndpoint>, id: string)
    ensures Mentions(Insert(x, q, ById), id) <==> x.id == id || Mentions(q, id)
  {
    var r := Insert(x, q, ById);
    InsertKeeps(x, q, ById);
    if i :| 0 <= i < |r| && r[i].id == id {
      assert r[i] in multiset(r);
      assert r[i] == x || r[i] in q;
    }
    if x.id == id { assert x in multiset(r); assert x in r; }
    if i :| 0 <= i < |q| && q[i].id == id { assert q[i] in multiset(r); assert q[i] in r; }
  }

  lemma {:induction false} InsertUnique(x: ServiceEndpoint, q: seq<ServiceEndpoint>)
    ensures UniqueIds(Insert(x, q, ById)) <==> UniqueIds([x] + q)
  {
    UniqueCons(x, q);
    if q != [] && !ById(x, q[0]) {
      var rest := q[1..];
      InsertUnique(x, rest);
      UniqueCons(x, rest);
      assert q == [q[0]] + rest;
      UniqueCons(q[0], rest);
      UniqueCons(q[0], Insert(x, rest, ById));
      InsertMentions(x, rest, q[0].id);
      MentionsCons(q[0], rest, x.id);
    }
  }

  lemma MentionsCons(x: ServiceEndpoint, rest: seq<ServiceEndpoint>, id: string)
    ensures Mentions([x] + rest, id) <==> x.id == id || Mentions(rest, id)
  {
    var q := [x] + rest;
    if i :| 0 <= i < |q| && q[i].id == id && i > 0 { assert rest[i - 1].id == id; }
    if i :| 0 <= i < |rest| && rest[i].id == id { assert q[i + 1].id == id; }
    assert q[0] == x;
  }

  lemma SortMentions(es: seq<ServiceEndpoint>, id: string)
    ensures Mentions(Sort(es, ById), id) <==> Mentions(es, id)
  {
    SortKeeps(es, ById);
    var q := Sort(es, ById);
    if i :| 0 <= i < |q| && q[i].id == id { assert q[i] in es; }
    if i :| 0 <= i < |es| && es[i].id == id { assert es[i] in q; }
  }

  lemma {:induction false} SortUnique(es: seq<ServiceEndpoint>)
    ensures UniqueIds(Sort(es, ById)) <==> UniqueIds(es)
  {
    if es != [] {
      var x, rest := es[0], es[1..];
      SortUnique(rest);
      assert es == [x] + rest;
      InsertUnique(x, Sort(rest, ById));
      UniqueCons(x, Sort(rest, ById));
      UniqueCons(x, rest);
      SortMentions(rest, x.id);
    }
  }

  /** The index has exactly the ids listed, each with an endpoint listed under it. */
  lemma {:induction false} IndexContents(es: seq<ServiceEndpoint>)
    ensures forall id :: id in IndexById(es) <==> Mentions(es, id)
    ensures forall id :: id in IndexById(es) ==> IndexById(es)[id].id == id && IndexById(es)[id] in es
    decreases |es|
  {
    if es != [] {
      var front, e := es[..|es| - 1], es[|es| - 1];
      IndexContents(front);
      assert es == front + [e];
      assert IndexById(es) == IndexById(front)[e.id := e];
      forall id ensures Mentions(es, id) <==> Mentions(front, id) || e.id == id {
        if i :| 0 <= i < |front| && front[i].id == id { assert es[i].id == id; }
        if e.id == id { assert es[|front|].id == id; }
      }
    }
  }

  function Ids(es: seq<ServiceEndpoint>): (ids: seq<string>)
    ensures |ids| == |es| && forall i :: 0 <= i < |es| ==> ids[i] == es[i].id
  {
    seq(|es|, i requires 0 <= i < |es| => es[i].id)
  }

  lemma IdOrderIds(es: seq<ServiceEndpoint>)
    ensures StrictlySorted(Ids(InIdOrder(IndexById(es))), StrLeq)
    ensures forall id :: id in Ids(InIdOrder(IndexById(es))) <==> Mentions(es, id)
    ensures forall x :: x in InIdOrder(IndexById(es)) ==> x in es
  {
    StrOrder();
    IndexContents(es);
    var index := IndexById(es);
    var ids := Enumerate(index.Keys, StrLeq);
    assert forall i :: 0 <= i < |ids| ==> ids[i] in index by {
      assert forall i :: 0 <= i < |ids| ==> ids[i] in ids;
    }
    assert Ids(InIdOrder(index)) == ids;
  }

  lemma SortedUniqueIds(es: seq<ServiceEndpoint>)
    requires UniqueIds(es)
    ensures StrictlySorted(Ids(Sort(es, ById)), StrLeq)
    ensures forall id :: id in Ids(Sort(es, ById)) <==> Mentions(es, id)
  {
    var sorted := Sort(es, ById);
    StrOrder();
    SortOrders(es, ById);
    SortUnique(es);
    forall id ensures id in Ids(sorted) <==> Mentions(es, id) {
      SortMentions(es, id);
      if i :| 0 <= i < |sorted| && sorted[i].id == id { assert Ids(sorted)[i] == id; }
    }
  }

  /** Listing by id agrees with sorting by id exactly when no two endpoints share an id. */
  lemma IndexAgreesWithSort(es: seq<ServiceEndpoint>)
    ensures InIdOrder(IndexById(es)) == Sort(es, ById) <==> UniqueIds(es)
  {
    var listed, sorted := InIdOrder(IndexById(es)), Sort(es, ById);
    IdOrderIds(es);
    SortUnique(es);
    if listed == sorted {
      assert forall i :: 0 <= i < |listed| ==> Ids(listed)[i] == listed[i].id;
    }
    if UniqueIds(es) {
      SortedUniqueIds(es);
      SameIds(es, Ids(listed), Ids(sorted));
      SortKeeps(es, ById);
      assert |listed| == |sorted|;
      forall i | 0 <= i < |listed| ensures listed[i] == sorted[i] {
        assert Ids(listed)[i] == Ids(sorted)[i];
        assert listed[i] in es && sorted[i] in es;
      }
    }
  }

  lemma SameIds(es: seq<ServiceEndpoint>, p: seq<string>, q: seq<string>)
    requires StrictlySorted(p, StrLeq) && StrictlySorted(q, StrLeq)
    requires (forall id :: id in p <==> Mentions(es, id)) && (forall id :: id in q <==> Mentions(es, id))
    ensures p == q
  {
    StrOrder();
    EnumerationUnique(p, q, StrLeq);
  }

  /**
   A service's discovery snapshot and its flushed endpoints are the same list exactly when its live
   endpoint ids are unique.
   */
  lemma DiscoveryPathsAgree(slices: SliceMap, service: Key)
    ensures SnapshotOf(slices, service).endpoints == Recompute(slices, service)
            <==> UniqueIds(Gather(slices, KeysOf(slices, service)))
  {
    IndexAgreesWithSort(Gather(slices, KeysOf(slices, service)));
  }

  /** A slice of service `a` with one ready pod, always under the same id. */
  function PodSliceAt(name: string, bits: nat): Slice {
    Slice(Key("edge", name), "a", 1, Ipv4, [80], [Endpoint("pod", [V4(bits)], true, true, false)])
  }

  lemma PodLive(name: string, bits: nat)
    ensures LiveEndpoints(PodSliceAt(name, bits)) == [ServiceEndpoint("pod", V4(bits), 80)]
  {
    var pod := Endpoint("pod", [V4(bits)], true, true, false);
    assert LiveEndpoints(PodSliceAt(name, bits)) == LiveAmong([80], [pod][..0]) + LiveOf([80], pod);
  }

  lemma GatherPair(slices: SliceMap, a: Key, b: Key)
    ensures Gather(slices, [a, b]) == LiveAt(slices, a) + LiveAt(slices, b)
  {
    assert [a, b][..1] == [a] && [a][..0] == [];
    assert Gather(slices, [a]) == Gather(slices, []) + LiveAt(slices, a);
  }

  lemma PairListed(keys: seq<Key>, a: Key, b: Key)
    requires |keys| == 2 && a != b && a in keys && b in keys
    ensures keys == [a, b] || keys == [b, a]
  {
  }

  /** Endpoints under one id: sorting keeps both, the index only the later one. */
  lemma RepeatedId(es: seq<ServiceEndpoint>)
    requires |es| == 2 && es[0].id == es[1].id
    ensures |Sort(es, ById)| == 2 && |InIdOrder(IndexById(es))| == 1
  {
    SortKeeps(es, ById);
    var first := es[..1];
    assert Overlaid(map[], first[..0]) == map[];
    assert Overlaid(map[], first) == map[es[0].id := es[0]];
    assert IndexById(es) == map[es[0].id := es[1]];
  }

  lemma PairGathered(slices: SliceMap, a: Key, b: Key, service: Key)
    requires a != b && SlicesOf(slices, service) == {a, b}
    ensures
      var es := Gather(slices, KeysOf(slices, service));
      es == LiveAt(slices, a) + LiveAt(slices, b) || es == LiveAt(slices, b) + LiveAt(slices, a)
  {
    KeyOrder();
    assert |Enumerate({a, b}, KeyLeq)| == 2;
    PairListed(KeysOf(slices, service), a, b);
    GatherPair(slices, a, b);
    GatherPair(slices, b, a);
  }

  lemma SamePodGathered(slices: SliceMap, a: Key, b: Key, service: Key)
    requires a != b && SlicesOf(slices, service) == {a, b}
    requires |LiveAt(slices, a)| == |LiveAt(slices, b)| == 1 && LiveAt(slices, a)[0].id == LiveAt(slices, b)[0].id
    ensures |Recompute(slices, service)| == 2 && |SnapshotOf(slices, service).endpoints| == 1
  {
    PairGathered(slices, a, b, service);
    RepeatedId(Gather(slices, KeysOf(slices, service)));
  }

  /** Two accepted slices of one service that name the same pod: a flush shows two endpoints, discovery one. */
  ghost predicate ListsDiffer(s: Slice, t: Slice) {
    var slices := map[s.key := s, t.key := t];
    && Accepts(map[], s) && Accepts(map[s.key := s], t)
    && |Recompute(slices, ServiceOf(s))| == 2 && |SnapshotOf(slices, ServiceOf(s)).endpoints| == 1
  }

  lemma SamePodDiffers(s: Slice, t: Slice)
    requires WellFormed(s) && WellFormed(t) && s.key != t.key && ServiceOf(s) == ServiceOf(t)
    requires |LiveEndpoints(s)| == |LiveEndpoints(t)| == 1 && LiveEndpoints(s)[0].id == LiveEndpoints(t)[0].id
    ensures ListsDiffer(s, t)
  {
    var slices := map[s.key := s, t.key := t];
    assert SlicesOf(slices, ServiceOf(s)) == {s.key, t.key};
    SamePodGathered(slices, s.key, t.key, ServiceOf(s));
  }

  /** For example, one pod listed in two slices, at whatever addresses. */
  lemma RepeatedIdExample(first: nat, second: nat)
    ensures ListsDiffer(PodSliceAt("s", first), PodSliceAt("t", second))
  {
    PodLive("s", first);
    PodLive("t", second);
    SamePodDiffers(PodSliceAt("s", first), PodSliceAt("t", second));
  }

  /** Among accepted slices the snapshot's generation is the largest of the service's slices. */
  lemma {:induction false} GenerationIsMaximum(slices: SliceMap, keys: seq<Key>)
    requires forall i :: 0 <= i < |keys| ==> keys[i] in slices && WellFormed(slices[keys[i]])
    ensures forall i :: 0 <= i < |keys| ==> slices[keys[i]].generation <= MaxGeneration(slices, keys)
    ensures keys != [] ==> exists i :: 0 <= i < |keys| && slices[keys[i]].generation == MaxGeneration(slices, keys)
    decreases |keys|
  {
    if keys != [] {
      var last := |keys| - 1;
      GenerationIsMaximum(slices, keys[..last]);
      if last > 0 {
        var i :| 0 <= i < last && slices[keys[..last][i]].generation == MaxGeneration(slices, keys[..last]);
        assert keys[i] == keys[..last][i];
      }
      assert forall i :: 0 <= i < last ==> keys[i] == keys[..last][i];
      assert slices[keys[last]].generation <= MaxGeneration(slices, keys);
    }
  }
}
