/** Small compiled workspaces and a registry that published two of them, for concrete runs. */
module Samples {
  import opened Basics
  import opened Compiler
  import opened Registry
  import opened Dataplane
  import Safety = RolloutSafety

  function Repeated(c: char, n: nat): string {
    seq(n, _ => c)
  }

  predicate AnyConfig(c: Config) {
    true
  }

  predicate AnySignature(s: Snapshot, attestation: Option<string>) {
    true
  }

  predicate AnyHook(s: Snapshot) {
    true
  }

  function NamedRule(name: string, matchRule: string): Result<string, ModelError> {
    Ok(name)
  }

  function NamedCluster(name: string, endpoints: seq<UpstreamEndpoint>): Result<string, ModelError> {
    Ok(name)
  }

  /** Stands in for a hash: hexadecimal, and different for the workspaces below. */
  function SampleDigest(v: View): string {
    Repeated(if v.listeners != [] then 'b' else if v.policies != "" then 'c' else 'a', SHA256_HEX_LEN)
  }

  function SampleEnv(): Env {
    Env(AnyConfig, NamedRule, NamedCluster, SampleDigest)
  }

  function SampleListener(): Listener {
    Listener("public", Public, SocketAddr(V4(1), 8080), SingleStack, "http1", "off", None, false, None, None, None,
             None, [], DEFAULT_BINDING, "", "")
  }

  function Workspace(policies: string, listeners: seq<Listener>): Config {
    Config("v1alpha1", "edge", FOUNDATION_DEFAULTS, "", policies, listeners, [], [])
  }

  lemma BareCompiles(policies: string)
    ensures
      var r := Compile(SampleEnv(), Workspace(policies, []));
      && r.Ok? && r.value.view.listeners == [] && r.value.view.routes == [] && r.value.view.clusters == []
      && r.value.view.policies == policies
      && DigestOf(r.value) == Repeated(if policies != "" then 'c' else 'a', SHA256_HEX_LEN)
  {
  }

  lemma ListenerCompiles()
    ensures
      var r := Compile(SampleEnv(), Workspace("", [SampleListener()]));
      && r.Ok? && |r.value.view.listeners| == 1 && |r.value.compiledListeners| == 1
      && r.value.view.routes == [] && r.value.view.clusters == []
      && DigestOf(r.value) == Repeated('b', SHA256_HEX_LEN)
  {
    var c := Workspace("", [SampleListener()]);
    CompileAllMeaning(c.listeners, ListenerName, ListenerCompiler(c.defaults), ListenerTaken);
    assert Trim("public") == "public" by {
      assert "public"[..6] == "public";
    }
    assert ListenerCompiler(c.defaults)(c.listeners[0]).Ok?;
  }

  /** The workspace with nothing in it, the one with a listener, and the one with only another policy text. */
  function Bare(): Snapshot
    ensures Compile(SampleEnv(), Workspace("", [])) == Ok(Bare())
  {
    BareCompiles("");
    Compile(SampleEnv(), Workspace("", [])).value
  }

  function WithListener(): Snapshot
    ensures Compile(SampleEnv(), Workspace("", [SampleListener()])) == Ok(WithListener())
  {
    ListenerCompiles();
    Compile(SampleEnv(), Workspace("", [SampleListener()])).value
  }

  function WithPolicy(): Snapshot
    ensures Compile(SampleEnv(), Workspace("strict", [])) == Ok(WithPolicy())
  {
    BareCompiles("strict");
    Compile(SampleEnv(), Workspace("strict", [])).value
  }

  function PlainRequest(version: string, snapshot: Snapshot): Request {
    Request(version, snapshot, None, None, None, None)
  }

  function TwoPublications(first: string, a: Snapshot, second: string, b: Snapshot): seq<Registry.Op> {
    [PublishOp(PlainRequest(first, a), 0), PublishOp(PlainRequest(second, b), 1)]
  }

  /** The registry after publishing `a` and then `b`. */
  ghost function Holding(first: string, a: Snapshot, second: string, b: Snapshot): Core {
    Registry.Run(AnySignature, EMPTY, TwoPublications(first, a, second, b)).core
  }

  lemma NewAccepted(version: string, snapshot: Snapshot, st: State, at: nat)
    requires VersionOk(version) && IsDigest(DigestOf(snapshot))
    requires version !in st.core.records && DigestOf(snapshot) !in st.core.byDigest
    ensures Publish(AnySignature, st, PlainRequest(version, snapshot), at).0.core
            == Extended(st.core, RecordFor(PlainRequest(version, snapshot), at))
  {
  }

  lemma HoldsBoth(first: string, a: Snapshot, second: string, b: Snapshot)
    requires VersionOk(first) && VersionOk(second) && first != second
    requires IsDigest(DigestOf(a)) && IsDigest(DigestOf(b)) && DigestOf(a) != DigestOf(b)
    ensures
      var core := Holding(first, a, second, b);
      && core.records == map[first := RecordFor(PlainRequest(first, a), 0),
                             second := RecordFor(PlainRequest(second, b), 1)]
      && core.history == [first, second]
  {
    var ops := TwoPublications(first, a, second, b);
    NewAccepted(first, a, EMPTY, 0);
    var one := Registry.Apply(AnySignature, EMPTY, ops[0]);
    NewAccepted(second, b, one, 1);
    assert ops[1..] == [ops[1]];
    assert Registry.Run(AnySignature, one, ops[1..]) == Registry.Apply(AnySignature, one, ops[1]);
  }

  lemma HoldingIsProper(first: string, a: Snapshot, second: string, b: Snapshot)
    ensures Safety.AllProper(Holding(first, a, second, b))
  {
    RegistryInvariant(AnySignature, EMPTY, TwoPublications(first, a, second, b));
    Safety.RecordsProper(AnySignature, Registry.Run(AnySignature, EMPTY, TwoPublications(first, a, second, b)));
  }

  lemma OneCharacter(c: char)
    requires !IsWhitespace(c) && c < '\U{0080}' && IsVersionChar(c)
    ensures Trim([c]) == [c] && Trim([' ', c]) == [c] && VersionOk([c]) && VersionOk([' ', c])
  {
    assert [' ', c][1..] == [c];
    assert Utf8Len([c]) == 1 + Utf8Len([c][1..]);
  }

  /** The view lists no resources. */
  predicate Empty(v: View) {
    v.listeners == [] && v.routes == [] && v.clusters == []
  }

  lemma SampleFacts()
    ensures IsDigest(DigestOf(Bare())) && IsDigest(DigestOf(WithListener())) && IsDigest(DigestOf(WithPolicy()))
    ensures DigestOf(Bare()) != DigestOf(WithListener()) && DigestOf(Bare()) != DigestOf(WithPolicy())
    ensures Empty(Bare().view) && Empty(WithPolicy().view) && WithListener().view.listeners != []
    ensures Bare().view.policies == "" && WithPolicy().view.policies == "strict"
  {
    BareCompiles("");
    BareCompiles("strict");
    ListenerCompiles();
    assert Repeated('a', 64)[0] != Repeated('b', 64)[0] && Repeated('a', 64)[0] != Repeated('c', 64)[0];
  }

  /** The registry that published the bare workspace as `"1"` and the one with a listener as `"2"`. */
  ghost function Released(): Core {
    Holding("1", Bare(), "2", WithListener())
  }

  lemma ReleasedFacts()
    ensures
      var core := Released();
      && "1" in core.records && core.records["1"].snapshot == Bare() && core.records["1"].version == "1"
      && "2" in core.records && core.records["2"].snapshot == WithListener() && core.records["2"].version == "2"
      && Safety.AllProper(core)
    ensures VersionOk("1") && Trim("1") == "1" && VersionOk("2") && Trim("2") == "2"
  {
    SampleFacts();
    OneCharacter('1');
    OneCharacter('2');
    HoldsBoth("1", Bare(), "2", WithListener());
    HoldingIsProper("1", Bare(), "2", WithListener());
  }
}
