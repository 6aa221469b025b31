/**
 The workspace compiler: a declarative configuration becomes an immutable, normalised snapshot with a
 content digest, and a snapshot's view can be turned back into a configuration.
 */
module Compiler {
  import opened Basics
  import opened Ordering

  // ----- configuration -----

  datatype ListenerClass = Public | Admin

  datatype BindMode = SingleStack | DualStack | Ipv6Only

  datatype CertificateSource = Files(certPath: string, keyPath: string, ocspPath: Option<string>)

  datatype SniCertificate = SniCertificate(serverNames: seq<string>, source: CertificateSource)

  /** Text fields stand for sub-records that are copied whole. */
  datatype Tls = Tls(source: CertificateSource, sni: seq<SniCertificate>, resumption: string, minimumVersion: string,
                     alpn: seq<string>)

  /** The named policies attached to a resource, one list per kind of policy. */
  type PolicyBinding = seq<seq<string>>

  datatype Listener = Listener(
    name: string, kind: ListenerClass, bindAddress: SocketAddr, bindMode: BindMode, protocol: string,
    proxyProtocol: string, tls: Option<Tls>, allowUnspecifiedBind: bool, maxConnections: Option<nat>,
    backlog: Option<nat>, idleTimeoutMs: Option<U64>, drainTimeoutMs: Option<U64>, routes: seq<string>,
    policies: PolicyBinding, upgrade: string, admin: string)

  datatype ListenerDefaults = ListenerDefaults(
    maxConnections: nat, backlog: nat, idleTimeoutMs: U64, drainTimeoutMs: U64, allowUnspecifiedBind: bool)

  datatype Destination = Destination(cluster: string, weight: nat, policies: PolicyBinding)

  datatype Route = Route(
    name: string, matchRule: string, upstreamCluster: Option<string>, destinations: seq<Destination>,
    policies: PolicyBinding, upgrade: string)

  datatype UpstreamEndpoint = UpstreamEndpoint(
    id: string, address: SocketAddr, state: string, zone: Option<string>, locality: Option<string>, weight: nat)

  datatype Cluster = Cluster(
    name: string, transport: string, endpoints: seq<UpstreamEndpoint>, discovery: Option<string>,
    trafficPolicy: string, policies: PolicyBinding)

  datatype Config = Config(
    apiVersion: string, name: string, defaults: ListenerDefaults, security: string, policies: string,
    listeners: seq<Listener>, routes: seq<Route>, clusters: seq<Cluster>)

  // ----- compiled forms -----

  datatype Duration = Duration(secs: nat, nanos: nat)

  function FromMillis(ms: nat): Duration {
    Duration(ms / 1000, (ms % 1000) * 1000000)
  }

  /** `duration_to_millis`: capped at the largest 64-bit value. */
  function ToMillis(d: Duration): U64 {
    Min(d.secs * 1000 + d.nanos / 1000000, U64_MAX)
  }

  datatype NetListener = NetListener(
    name: string, kind: ListenerClass, bindAddress: SocketAddr, bindMode: BindMode, maxConnections: nat,
    backlog: nat, idleTimeout: Duration, drainTimeout: Duration, allowUnspecifiedBind: bool,
    proxyProtocol: string, tls: Option<(string, string)>)

  datatype ListenerError =
    | EmptyName | ZeroMaxConnections | ZeroBacklog | UnspecifiedBindRequiresOptIn | DualStackRequiresIpv6Bind
    | DualStackRequiresIpv6Wildcard | Ipv6OnlyRequiresIpv6Bind | EmptyTlsCertificatePath | EmptyTlsPrivateKeyPath

  datatype ModelError =
    | DuplicateListenerName(name: string)
    | DuplicateRouteName(name: string)
    | DuplicateClusterName(name: string)
    | InvalidListener(error: ListenerError)
    | InvalidRule(detail: string)
    | InvalidUpstream(detail: string)

  datatype CompileError = Validation | Model(error: ModelError)

  datatype CertificateSourceSnapshot = FilesSnapshot(certPath: string, keyPath: string, ocspPath: Option<string>)

  datatype SniSnapshot = SniSnapshot(serverNames: seq<string>, source: CertificateSourceSnapshot)

  datatype TlsSnapshot = TlsSnapshot(
    source: CertificateSourceSnapshot, sni: seq<SniSnapshot>, resumption: string, minimumVersion: string,
    alpn: seq<string>)

  datatype ListenerSnapshot = ListenerSnapshot(
    name: string, kind: ListenerClass, protocol: string, bindMode: BindMode, proxyProtocol: string, admin: string,
    tls: Option<TlsSnapshot>, bindAddress: SocketAddr, maxConnections: nat, backlog: nat, idleTimeoutMs: U64,
    drainTimeoutMs: U64, allowUnspecifiedBind: bool, routes: seq<string>, policies: PolicyBinding, upgrade: string)

  datatype RouteSnapshot = RouteSnapshot(
    name: string, matchRule: string, destinations: seq<Destination>, policies: PolicyBinding, upgrade: string)

  /** Unlike the configuration, a cluster snapshot records no discovery source. */
  datatype ClusterSnapshot = ClusterSnapshot(
    name: string, transport: string, endpoints: seq<UpstreamEndpoint>, trafficPolicy: string, policies: PolicyBinding)

  datatype Metadata = Metadata(formatVersion: string, apiVersion: string, digest: string)

  datatype View = View(
    metadata: Metadata, workspaceName: string, security: string, policies: string,
    listeners: seq<ListenerSnapshot>, routes: seq<RouteSnapshot>, clusters: seq<ClusterSnapshot>)

  datatype Snapshot = Snapshot(
    view: View, compiledListeners: seq<NetListener>, compiledRules: seq<string>, compiledClusters: seq<string>)

  /**
   What the compiler takes from code outside this model: the remaining validation rules, the route
   rule and cluster compilers, and the digest of a serialised view.
   */
  datatype Env = Env(
    otherChecks: Config -> bool,
    compileRule: (string, string) -> Result<string, ModelError>,
    compileCluster: (string, seq<UpstreamEndpoint>) -> Result<string, ModelError>,
    digest: View -> string)

  // ----- normalisation -----

  predicate NamesLeq(a: seq<string>, b: seq<string>) {
    LexLeq(a, b, StrLeq)
  }

  predicate BindingLeq(a: PolicyBinding, b: PolicyBinding) {
    LexLeq(a, b, NamesLeq)
  }

  /** The derived order of destinations: cluster, then weight, then policies. */
  predicate DestinationLeq(a: Destination, b: Destination) {
    if a.cluster != b.cluster then StrLeq(a.cluster, b.cluster)
    else if a.weight != b.weight then a.weight <= b.weight
    else BindingLeq(a.policies, b.policies)
  }

  lemma NamesOrder()
    ensures TotalOrder(NamesLeq)
  {
    StrOrder();
    forall a, b ensures NamesLeq(a, b) || NamesLeq(b, a) { LexTotal(a, b, StrLeq); }
    forall a, b | NamesLeq(a, b) && NamesLeq(b, a) ensures a == b { LexAntisymmetric(a, b, StrLeq); }
    forall a, b, c | NamesLeq(a, b) && NamesLeq(b, c) ensures NamesLeq(a, c) { LexTransitive(a, b, c, StrLeq); }
  }

  lemma BindingOrder()
    ensures TotalOrder(BindingLeq)
  {
    NamesOrder();
    forall a, b ensures BindingLeq(a, b) || BindingLeq(b, a) { LexTotal(a, b, NamesLeq); }
    forall a, b | BindingLeq(a, b) && BindingLeq(b, a) ensures a == b { LexAntisymmetric(a, b, NamesLeq); }
    forall a, b, c | BindingLeq(a, b) && BindingLeq(b, c) ensures BindingLeq(a, c) { LexTransitive(a, b, c, NamesLeq); }
  }

  lemma DestinationOrder()
    ensures TotalPreorder(DestinationLeq)
  {
    StrOrder();
    BindingOrder();
  }

  const DEFAULT_BINDING: PolicyBinding := [[], [], [], [], [], [], [], [], [], [], [], [], [], [], [], []]

  const DEFAULT_WEIGHT: nat := 1

  /** Explicit destinations win over the single-cluster shorthand; either way the result is sorted. */
  function NormalizedDestinations(route: Route): seq<Destination> {
    var listed :=
      if route.destinations != [] then route.destinations
      else match route.upstreamCluster
        case Some(cluster) => [Destination(cluster, DEFAULT_WEIGHT, DEFAULT_BINDING)]
        case None => [];
    Sort(listed, DestinationLeq)
  }

  function GetOr<T>(o: Option<T>, default: T): T {
    match o case Some(v) => v case None => default
  }

  function ToNet(l: Listener, defaults: ListenerDefaults): NetListener {
    NetListener(
      l.name, l.kind, l.bindAddress, l.bindMode,
      GetOr(l.maxConnections, defaults.maxConnections),
      GetOr(l.backlog, defaults.backlog),
      FromMillis(GetOr(l.idleTimeoutMs, defaults.idleTimeoutMs)),
      FromMillis(GetOr(l.drainTimeoutMs, defaults.drainTimeoutMs)),
      l.allowUnspecifiedBind || defaults.allowUnspecifiedBind,
      l.proxyProtocol,
      match l.tls case Some(tls) => Some((tls.source.certPath, tls.source.keyPath)) case None => None)
  }

  predicate IsUnspecified(a: SocketAddr) {
    a.ip.bits == 0
  }

  function ListenerFault(n: NetListener): Option<ListenerError> {
    if Trim(n.name) == [] then Some(EmptyName)
    else if n.maxConnections == 0 then Some(ZeroMaxConnections)
    else if n.backlog == 0 then Some(ZeroBacklog)
    else if IsUnspecified(n.bindAddress) && !n.allowUnspecifiedBind then Some(UnspecifiedBindRequiresOptIn)
    else if n.bindMode.DualStack? && !n.bindAddress.ip.V6? then Some(DualStackRequiresIpv6Bind)
    else if n.bindMode.DualStack? && !IsUnspecified(n.bindAddress) then Some(DualStackRequiresIpv6Wildcard)
    else if n.bindMode.Ipv6Only? && !n.bindAddress.ip.V6? then Some(Ipv6OnlyRequiresIpv6Bind)
    else if n.tls.Some? && Trim(n.tls.value.0) == [] then Some(EmptyTlsCertificatePath)
    else if n.tls.Some? && Trim(n.tls.value.1) == [] then Some(EmptyTlsPrivateKeyPath)
    else None
  }

  function CompileListener(l: Listener, defaults: ListenerDefaults): Result<NetListener, ModelError> {
    match ListenerFault(ToNet(l, defaults))
    case Some(error) => Err(InvalidListener(error))
    case None => Ok(ToNet(l, defaults))
  }

  // ----- compiling a list of named resources -----

  /** Each resource in turn: its name must be new and it must compile; the first failure is reported. */
  function CompileAll<T, U>(items: seq<T>, name: T -> string, one: T -> Result<U, ModelError>,
                            dup: string -> ModelError)
    : Result<seq<U>, ModelError>
  {
    if items == [] then Ok([])
    else
      var front, last := items[..|items| - 1], items[|items| - 1];
      match CompileAll(front, name, one, dup)
      case Err(error) => Err(error)
      case Ok(done) =>
        if exists i :: 0 <= i < |front| && name(front[i]) == name(last) then Err(dup(name(last)))
        else match one(last)
          case Err(error) => Err(error)
          case Ok(compiled) => Ok(done + [compiled])
  }

  /** The loop shared by listeners, routes and clusters, with its set of seen names. */
  method CompileEach<T, U>(items: seq<T>, name: T -> string, one: T -> Result<U, ModelError>, dup: string -> ModelError)
    returns (r: Result<seq<U>, ModelError>)
    ensures r == CompileAll(items, name, one, dup)
  {
    var seen: set<string> := {};
    var compiled: seq<U> := [];
    for i := 0 to |items|
      invariant forall n :: n in seen <==> exists j :: 0 <= j < i && name(items[j]) == n
      invariant CompileAll(items[..i], name, one, dup) == Ok(compiled)
    {
      assert items[..i + 1][..i] == items[..i];
      var item := items[i];
      if name(item) in seen {
        CompileAllStops(items, i + 1, name, one, dup);
        return Err(dup(name(item)));
      }
      seen := seen + {name(item)};
      match one(item) {
        case Err(error) =>
          CompileAllStops(items, i + 1, name, one, dup);
          return Err(error);
        case Ok(u) =>
          compiled := compiled + [u];
      }
    }
    assert items[..|items|] == items;
    r := Ok(compiled);
  }

  lemma {:induction false} CompileAllStops<T, U>(items: seq<T>, n: nat, name: T -> string,
      one: T -> Result<U, ModelError>, dup: string -> ModelError)
    requires n <= |items| && CompileAll(items[..n], name, one, dup).Err?
    ensures CompileAll(items, name, one, dup) == CompileAll(items[..n], name, one, dup)
    decreases |items|
  {
    if n == |items| {
      assert items[..n] == items;
    } else {
      var front := items[..|items| - 1];
      assert front[..n] == items[..n];
      CompileAllStops(front, n, name, one, dup);
    }
  }

  /** Success means distinct names and every resource compiling, to exactly the listed results. */
  lemma {:induction false} CompileAllMeaning<T, U>(items: seq<T>, name: T -> string, one: T -> Result<U, ModelError>,
      dup: string -> ModelError)
    ensures
      var r := CompileAll(items, name, one, dup);
      && (r.Ok? <==> (forall i, j :: 0 <= i < j < |items| ==> name(items[i]) != name(items[j]))
                     && forall i :: 0 <= i < |items| ==> one(items[i]).Ok?)
      && (r.Ok? ==> |r.value| == |items| && forall i :: 0 <= i < |items| ==> one(items[i]) == Ok(r.value[i]))
    decreases |items|
  {
    if items != [] {
      var front, last := items[..|items| - 1], items[|items| - 1];
      CompileAllMeaning(front, name, one, dup);
      assert forall i :: 0 <= i < |front| ==> front[i] == items[i];
    }
  }

  /** Two lists that agree on names and on what each resource compiles to compile alike. */
  lemma {:induction false} CompileAllSame<T, U>(
    a: seq<T>, b: seq<T>, name: T -> string, f: T -> Result<U, ModelError>, g: T -> Result<U, ModelError>,
    dup: string -> ModelError)
    requires |a| == |b|
    requires forall i :: 0 <= i < |a| ==> name(a[i]) == name(b[i]) && f(a[i]) == g(b[i])
    ensures CompileAll(a, name, f, dup) == CompileAll(b, name, g, dup)
    decreases |a|
  {
    if a != [] {
      var n := |a| - 1;
      CompileAllSame(a[..n], b[..n], name, f, g, dup);
      assert (exists i :: 0 <= i < n && name(a[..n][i]) == name(a[n])) <==>
        (exists i :: 0 <= i < n && name(b[..n][i]) == name(b[n])) by {
        if i :| 0 <= i < n && name(a[..n][i]) == name(a[n]) { assert name(b[..n][i]) == name(b[n]); }
        if i :| 0 <= i < n && name(b[..n][i]) == name(b[n]) { assert name(a[..n][i]) == name(a[n]); }
      }
    }
  }

  // ----- compile, view, decompile -----

  function SourceSnapshot(c: CertificateSource): CertificateSourceSnapshot {
    FilesSnapshot(c.certPath, c.keyPath, c.ocspPath)
  }

  function SourceConfig(c: CertificateSourceSnapshot): CertificateSource {
    Files(c.certPath, c.keyPath, c.ocspPath)
  }

  function SnapshotTls(t: Tls): TlsSnapshot {
    TlsSnapshot(SourceSnapshot(t.source),
                seq(|t.sni|, i requires 0 <= i < |t.sni| =>
                    SniSnapshot(t.sni[i].serverNames, SourceSnapshot(t.sni[i].source))),
                t.resumption, t.minimumVersion, t.alpn)
  }

  function ConfigTls(t: TlsSnapshot): Tls {
    Tls(SourceConfig(t.source),
        seq(|t.sni|, i requires 0 <= i < |t.sni| =>
            SniCertificate(t.sni[i].serverNames, SourceConfig(t.sni[i].source))),
        t.resumption, t.minimumVersion, t.alpn)
  }

  function SnapshotListener(l: Listener, n: NetListener): ListenerSnapshot {
    ListenerSnapshot(
      l.name, l.kind, l.protocol, l.bindMode, l.proxyProtocol, l.admin,
      match l.tls case Some(tls) => Some(SnapshotTls(tls)) case None => None,
      n.bindAddress, n.maxConnections, n.backlog, ToMillis(n.idleTimeout), ToMillis(n.drainTimeout),
      n.allowUnspecifiedBind, l.routes, l.policies, l.upgrade)
  }

  function SnapshotRoute(r: Route): RouteSnapshot {
    RouteSnapshot(r.name, r.matchRule, NormalizedDestinations(r), r.policies, r.upgrade)
  }

  function SnapshotCluster(c: Cluster): ClusterSnapshot {
    ClusterSnapshot(c.name, c.transport, c.endpoints, c.trafficPolicy, c.policies)
  }

  function ConfigListener(l: ListenerSnapshot): Listener {
    Listener(
      l.name, l.kind, l.bindAddress, l.bindMode, l.protocol, l.proxyProtocol,
      match l.tls case Some(tls) => Some(ConfigTls(tls)) case None => None,
      l.allowUnspecifiedBind, Some(l.maxConnections), Some(l.backlog), Some(l.idleTimeoutMs), Some(l.drainTimeoutMs),
      l.routes, l.policies, l.upgrade, l.admin)
  }

  function ConfigRoute(r: RouteSnapshot): Route {
    Route(r.name, r.matchRule, None, r.destinations, r.policies, r.upgrade)
  }

  function ConfigCluster(c: ClusterSnapshot): Cluster {
    Cluster(c.name, c.transport, c.endpoints, None, c.trafficPolicy, c.policies)
  }

  function Map<T, U>(s: seq<T>, f: T -> U): (r: seq<U>)
    ensures |r| == |s| && forall i :: 0 <= i < |s| ==> r[i] == f(s[i])
  {
    seq(|s|, i requires 0 <= i < |s| => f(s[i]))
  }

  /** Exactly one source of endpoints: a static list or discovery. */
  predicate HasOneSource(c: Cluster) {
    c.endpoints != [] <==> c.discovery.None?
  }

  predicate Validates(env: Env, c: Config) {
    (forall i :: 0 <= i < |c.clusters| ==> HasOneSource(c.clusters[i])) && env.otherChecks(c)
  }

  const SNAPSHOT_FORMAT_VERSION: string := "v1"

  /** The defaults of `WorkspaceConfig::foundation`. */
  const FOUNDATION_DEFAULTS: ListenerDefaults := ListenerDefaults(128, 1024, 30000, 5000, false)

  function ListenerName(l: Listener): string { l.name }

  function RouteName(r: Route): string { r.name }

  function ClusterName(k: Cluster): string { k.name }

  function ListenerTaken(name: string): ModelError { DuplicateListenerName(name) }

  function RouteTaken(name: string): ModelError { DuplicateRouteName(name) }

  function ClusterTaken(name: string): ModelError { DuplicateClusterName(name) }

  function ListenerCompiler(defaults: ListenerDefaults): Listener -> Result<NetListener, ModelError> {
    (l: Listener) => CompileListener(l, defaults)
  }

  function RuleCompiler(env: Env): Route -> Result<string, ModelError> {
    (r: Route) => env.compileRule(r.name, r.matchRule)
  }

  function ClusterCompiler(env: Env): Cluster -> Result<string, ModelError> {
    (k: Cluster) => env.compileCluster(k.name, k.endpoints)
  }

  function CompileListeners(c: Config): (r: Result<seq<NetListener>, ModelError>)
    ensures r.Ok? ==> |r.value| == |c.listeners|
  {
    CompileAllMeaning(c.listeners, ListenerName, ListenerCompiler(c.defaults), ListenerTaken);
    CompileAll(c.listeners, ListenerName, ListenerCompiler(c.defaults), ListenerTaken)
  }

  function CompileRules(env: Env, c: Config): Result<seq<string>, ModelError> {
    CompileAll(c.routes, RouteName, RuleCompiler(env), RouteTaken)
  }

  function CompileClusters(env: Env, c: Config): Result<seq<string>, ModelError> {
    CompileAll(c.clusters, ClusterName, ClusterCompiler(env), ClusterTaken)
  }

  /** The snapshot lists, before a digest is known. */
  function Undigested(c: Config, nets: seq<NetListener>): View
    requires |nets| == |c.listeners|
  {
    View(Metadata(SNAPSHOT_FORMAT_VERSION, c.apiVersion, ""), c.name, c.security, c.policies,
         seq(|nets|, i requires 0 <= i < |nets| => SnapshotListener(c.listeners[i], nets[i])),
         Map(c.routes, SnapshotRoute), Map(c.clusters, SnapshotCluster))
  }

  function Digested(env: Env, v: View): View {
    v.(metadata := v.metadata.(digest := env.digest(v)))
  }

  function Compile(env: Env, c: Config): Result<Snapshot, CompileError> {
    if !Validates(env, c) then Err(Validation)
    else
      match CompileListeners(c)
      case Err(error) => Err(Model(error))
      case Ok(nets) =>
        match CompileRules(env, c)
        case Err(error) => Err(Model(error))
        case Ok(rules) =>
          match CompileClusters(env, c)
          case Err(error) => Err(Model(error))
          case Ok(clusters) =>
            Ok(Snapshot(Digested(env, Undigested(c, nets)), nets, rules, clusters))
  }

  function Decompile(v: View): Config {
    Config(v.metadata.apiVersion, v.workspaceName, FOUNDATION_DEFAULTS, v.security, v.policies,
           Map(v.listeners, ConfigListener), Map(v.routes, ConfigRoute), Map(v.clusters, ConfigCluster))
  }

  function FromView(env: Env, v: View): Result<Snapshot, CompileError> {
    Compile(env, Decompile(v))
  }

  // ----- the round trip -----

  lemma MillisRoundTrip(ms: U64)
    ensures ToMillis(FromMillis(ms)) == ms
  {
  }

  lemma ListenerRoundTrip(l: Listener, defaults: ListenerDefaults)
    requires CompileListener(l, defaults).Ok?
    ensures
      var net := ToNet(l, defaults);
      var back := ConfigListener(SnapshotListener(l, net));
      && back.name == l.name
      && CompileListener(back, FOUNDATION_DEFAULTS) == Ok(net)
      && SnapshotListener(back, net) == SnapshotListener(l, net)
  {
    MillisRoundTrip(GetOr(l.idleTimeoutMs, defaults.idleTimeoutMs));
    MillisRoundTrip(GetOr(l.drainTimeoutMs, defaults.drainTimeoutMs));
    if l.tls.Some? {
      assert SnapshotTls(ConfigTls(SnapshotTls(l.tls.value))) == SnapshotTls(l.tls.value);
    }
  }

  /** Normalising a route twice is normalising it once, whichever form its destinations had. */
  lemma RouteRoundTrip(r: Route)
    ensures SnapshotRoute(ConfigRoute(SnapshotRoute(r))) == SnapshotRoute(r)
  {
    var listed := if r.destinations != [] then r.destinations
                  else match r.upstreamCluster
                    case Some(cluster) => [Destination(cluster, DEFAULT_WEIGHT, DEFAULT_BINDING)]
                    case None => [];
    DestinationOrder();
    SortOrders(listed, DestinationLeq);
    SortOfSorted(Sort(listed, DestinationLeq), DestinationLeq);
  }

  lemma ListenersFromView(c: Config, nets: seq<NetListener>, d: Config)
    requires CompileListeners(c) == Ok(nets) && d.defaults == FOUNDATION_DEFAULTS
    requires d.listeners == Map(Undigested(c, nets).listeners, ConfigListener)
    ensures CompileListeners(d) == Ok(nets)
    ensures Undigested(d, nets).listeners == Undigested(c, nets).listeners
  {
    CompileAllMeaning(c.listeners, ListenerName, ListenerCompiler(c.defaults), ListenerTaken);
    forall i | 0 <= i < |nets|
      ensures d.listeners[i].name == c.listeners[i].name && CompileListener(d.listeners[i], d.defaults) == Ok(nets[i])
      ensures CompileListener(c.listeners[i], c.defaults) == Ok(nets[i])
      ensures SnapshotListener(d.listeners[i], nets[i]) == SnapshotListener(c.listeners[i], nets[i])
    {
      assert ListenerCompiler(c.defaults)(c.listeners[i]) == Ok(nets[i]);
      ListenerRoundTrip(c.listeners[i], c.defaults);
    }
    CompileAllSame(c.listeners, d.listeners, ListenerName, ListenerCompiler(c.defaults), ListenerCompiler(d.defaults),
                   ListenerTaken);
  }

  lemma RulesFromView(env: Env, c: Config, d: Config)
    requires d.routes == Map(Map(c.routes, SnapshotRoute), ConfigRoute)
    ensures CompileRules(env, d) == CompileRules(env, c)
    ensures Map(d.routes, SnapshotRoute) == Map(c.routes, SnapshotRoute)
  {
    forall i | 0 <= i < |c.routes| ensures SnapshotRoute(d.routes[i]) == SnapshotRoute(c.routes[i]) {
      RouteRoundTrip(c.routes[i]);
    }
    CompileAllSame(c.routes, d.routes, RouteName, RuleCompiler(env), RuleCompiler(env), RouteTaken);
  }

  lemma ClustersFromView(env: Env, c: Config, d: Config)
    requires d.clusters == Map(Map(c.clusters, SnapshotCluster), ConfigCluster)
    ensures CompileClusters(env, d) == CompileClusters(env, c)
    ensures Map(d.clusters, SnapshotCluster) == Map(c.clusters, SnapshotCluster)
  {
    CompileAllSame(c.clusters, d.clusters, ClusterName, ClusterCompiler(env), ClusterCompiler(env), ClusterTaken);
  }

  /** All that can differ on recompiling a view is whether the reconstructed configuration validates. */
  lemma RecompileFromView(env: Env, c: Config)
    requires Compile(env, c).Ok?
    ensures
      var s := Compile(env, c).value;
      var d := Decompile(s.view);
      && CompileListeners(d) == Ok(s.compiledListeners)
      && CompileRules(env, d) == Ok(s.compiledRules)
      && CompileClusters(env, d) == Ok(s.compiledClusters)
      && |d.listeners| == |s.compiledListeners|
      && Digested(env, Undigested(d, s.compiledListeners)) == s.view
  {
    var s := Compile(env, c).value;
    var d := Decompile(s.view);
    ListenersFromView(c, s.compiledListeners, d);
    RulesFromView(env, c, d);
    ClustersFromView(env, c, d);
    assert Undigested(d, s.compiledListeners) == Undigested(c, s.compiledListeners);
  }

  /** The view of `s` can be compiled again. */
  predicate Restorable(env: Env, s: Snapshot) {
    Validates(env, Decompile(s.view))
  }

  /**
   Recompiling the view of a compiled snapshot gives back the whole snapshot, digest and compiled
   parts included, exactly when the reconstructed configuration validates; otherwise that is the error.
   */
  lemma RoundTrip(env: Env, c: Config)
    requires Compile(env, c).Ok?
    ensures
      var s := Compile(env, c).value;
      FromView(env, s.view) == if Restorable(env, s) then Ok(s) else Err(Validation)
  {
    RecompileFromView(env, c);
  }

  /**
   The view forgets discovery sources, so a compiled configuration survives the round trip only if
   none of its clusters is discovery-backed, and then exactly when the other rules still accept it.
   */
  lemma RestorableExactly(env: Env, c: Config)
    requires Compile(env, c).Ok?
    ensures
      var s := Compile(env, c).value;
      Restorable(env, s) <==>
        (forall i :: 0 <= i < |c.clusters| ==> c.clusters[i].discovery.None?) && env.otherChecks(Decompile(s.view))
  {
    var s := Compile(env, c).value;
    var d := Decompile(s.view);
    assert |d.clusters| == |c.clusters|;
    assert forall i :: 0 <= i < |c.clusters| ==>
      d.clusters[i].endpoints == c.clusters[i].endpoints && d.clusters[i].discovery == None
        && HasOneSource(c.clusters[i]);
    if (forall i :: 0 <= i < |c.clusters| ==> c.clusters[i].discovery.None?) {
    } else {
      var i :| 0 <= i < |c.clusters| && c.clusters[i].discovery.Some?;
      assert !HasOneSource(d.clusters[i]);
    }
  }

  /** For example, a workspace whose one cluster is discovered compiles, and its view does not. */
  lemma DiscoveryBackedSnapshotExample()
    ensures
      var env := Env(_ => true, (n, m) => Ok(n), (n, e) => Ok(n), _ => "d");
      var cluster := Cluster("payments", "http1", [], Some("dns"), "", DEFAULT_BINDING);
      var c := Config("v1alpha1", "edge", FOUNDATION_DEFAULTS, "", "", [], [], [cluster]);
      Compile(env, c).Ok? && FromView(env, Compile(env, c).value.view) == Err(Validation)
  {
    var env := Env(_ => true, (n, m) => Ok(n), (n, e) => Ok(n), _ => "d");
    var cluster := Cluster("payments", "http1", [], Some("dns"), "", DEFAULT_BINDING);
    var c := Config("v1alpha1", "edge", FOUNDATION_DEFAULTS, "", "", [], [], [cluster]);
    CompileAllMeaning(c.clusters, ClusterName, ClusterCompiler(env), ClusterTaken);
    RoundTrip(env, c);
    RestorableExactly(env, c);
  }

  ghost predicate InjectiveDigest(env: Env) {
    forall v, w :: env.digest(v) == env.digest(w) ==> v == w
  }

  /** Snapshots are content-addressed: equal digests mean equal snapshots, compiled parts included. */
  lemma DigestIdentifies(env: Env, c: Config, d: Config)
    requires InjectiveDigest(env) && Compile(env, c).Ok? && Compile(env, d).Ok?
    requires Compile(env, c).value.view.metadata.digest == Compile(env, d).value.view.metadata.digest
    ensures Compile(env, c).value == Compile(env, d).value
  {
    var s, t := Compile(env, c).value, Compile(env, d).value;
    assert Undigested(c, s.compiledListeners) == Undigested(d, t.compiledListeners);
    assert s.view == t.view;
    RecompileFromView(env, c);
    RecompileFromView(env, d);
  }

  lemma ListenerNamesUnique(env: Env, c: Config)
    requires Compile(env, c).Ok?
    ensures
      var v := Compile(env, c).value.view;
      forall i, j :: 0 <= i < j < |v.listeners| ==> v.listeners[i].name != v.listeners[j].name
  {
    CompileAllMeaning(c.listeners, ListenerName, ListenerCompiler(c.defaults), ListenerTaken);
    var v := Compile(env, c).value.view;
    assert forall i :: 0 <= i < |c.listeners| ==> v.listeners[i].name == ListenerName(c.listeners[i]);
  }

  lemma RouteNamesUnique(env: Env, c: Config)
    requires Compile(env, c).Ok?
    ensures
      var v := Compile(env, c).value.view;
      forall i, j :: 0 <= i < j < |v.routes| ==> v.routes[i].name != v.routes[j].name
  {
    CompileAllMeaning(c.routes, RouteName, RuleCompiler(env), RouteTaken);
    var v := Compile(env, c).value.view;
    assert forall i :: 0 <= i < |c.routes| ==> v.routes[i].name == RouteName(c.routes[i]);
  }

  lemma ClusterNamesUnique(env: Env, c: Config)
    requires Compile(env, c).Ok?
    ensures
      var v := Compile(env, c).value.view;
      forall i, j :: 0 <= i < j < |v.clusters| ==> v.clusters[i].name != v.clusters[j].name
  {
    CompileAllMeaning(c.clusters, ClusterName, ClusterCompiler(env), ClusterTaken);
    var v := Compile(env, c).value.view;
    assert forall i :: 0 <= i < |c.clusters| ==> v.clusters[i].name == ClusterName(c.clusters[i]);
  }

  /** Names are unique within each kind of resource of a compiled snapshot. */
  lemma CompiledNamesUnique(env: Env, c: Config)
    requires Compile(env, c).Ok?
    ensures
      var v := Compile(env, c).value.view;
      && (forall i, j :: 0 <= i < j < |v.listeners| ==> v.listeners[i].name != v.listeners[j].name)
      && (forall i, j :: 0 <= i < j < |v.routes| ==> v.routes[i].name != v.routes[j].name)
      && (forall i, j :: 0 <= i < j < |v.clusters| ==> v.clusters[i].name != v.clusters[j].name)
  {
    ListenerNamesUnique(env, c);
    RouteNamesUnique(env, c);
    ClusterNamesUnique(env, c);
  }
}
