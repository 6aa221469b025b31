/** The registry of published snapshots (`SnapshotControlService`): publish, backup and restore. */
module Registry {
  import opened Basics
  import opened Compiler

  const SHA256_HEX_LEN: nat := 64
  const MAX_VERSION_LEN: nat := 128
  const MAX_ACTOR_LEN: nat := 128
  const MAX_REASON_LEN: nat := 256

  datatype Record = Record(
    version: string, workspaceName: string, digest: string, attestation: Option<string>, publishedAt: nat,
    publishedBy: Option<string>, reason: Option<string>, snapshot: Snapshot)

  datatype Request = Request(
    version: string, snapshot: Snapshot, attestation: Option<string>, expectedDigest: Option<string>,
    publishedBy: Option<string>, reason: Option<string>)

  datatype InvalidPublish =
    | EmptyVersion | InvalidVersionFormat | VersionTooLong | InvalidSnapshotDigest | InvalidExpectedDigestFormat
    | DigestMismatch | ArtifactIntegrity | EmptyPublishedBy | PublishedByTooLong | EmptyReason | ReasonTooLong

  datatype PublishError =
    | InvalidRequest(error: InvalidPublish)
    | VersionAlreadyExists(version: string, existingDigest: string)
    | DigestAlreadyPublished(digest: string, existingVersion: string)

  datatype EventKind = PublishedEvent | UnchangedEvent | RejectedEvent

  datatype Event = Event(kind: EventKind, version: string, digest: string, at: nat)

  datatype ResponseKind = NewlyPublished | AlreadyPublished

  datatype Response = Response(kind: ResponseKind, record: Record, previousVersion: Option<string>)

  datatype Metrics = Metrics(
    published: nat, idempotent: nat, invalid: nat, conflict: nat, exports: nat, restored: nat, restoreFailed: nat,
    size: nat)

  /** The part of the registry that lookups depend on. */
  datatype Core = Core(records: map<string, Record>, byDigest: map<string, string>, history: seq<string>)

  datatype State = State(core: Core, events: seq<Event>, metrics: Metrics)

  const EMPTY: State := State(Core(map[], map[], []), [], Metrics(0, 0, 0, 0, 0, 0, 0, 0))

  /** Signature verification, which this model takes as given. */
  type Verifier = (Snapshot, Option<string>) -> bool

  function DigestOf(s: Snapshot): string {
    s.view.metadata.digest
  }

  predicate IsLowerHex(c: char) {
    '0' <= c <= '9' || 'a' <= c <= 'f'
  }

  predicate IsDigest(s: string) {
    |s| == SHA256_HEX_LEN && forall i :: 0 <= i < |s| ==> IsLowerHex(s[i])
  }

  predicate IsVersionChar(c: char) {
    'a' <= c <= 'z' || 'A' <= c <= 'Z' || '0' <= c <= '9' || c == '-' || c == '_' || c == '.'
  }

  predicate IsVersionText(s: string) {
    forall i :: 0 <= i < |s| ==> IsVersionChar(s[i])
  }

  function RequestFault(verify: Verifier, r: Request): Option<InvalidPublish> {
    var version := Trim(r.version);
    if version == [] then Some(EmptyVersion)
    else if Utf8Len(version) > MAX_VERSION_LEN then Some(VersionTooLong)
    else if !IsVersionText(version) then Some(InvalidVersionFormat)
    else if !IsDigest(DigestOf(r.snapshot)) then Some(InvalidSnapshotDigest)
    else if r.expectedDigest.Some? && !IsDigest(r.expectedDigest.value) then Some(InvalidExpectedDigestFormat)
    else if r.expectedDigest.Some? && r.expectedDigest.value != DigestOf(r.snapshot) then Some(DigestMismatch)
    else if !verify(r.snapshot, r.attestation) then Some(ArtifactIntegrity)
    else if r.publishedBy.Some? && Trim(r.publishedBy.value) == [] then Some(EmptyPublishedBy)
    else if r.publishedBy.Some? && Utf8Len(Trim(r.publishedBy.value)) > MAX_ACTOR_LEN then Some(PublishedByTooLong)
    else if r.reason.Some? && Trim(r.reason.value) == [] then Some(EmptyReason)
    else if r.reason.Some? && Utf8Len(Trim(r.reason.value)) > MAX_REASON_LEN then Some(ReasonTooLong)
    else None
  }

  /** The record a request would publish. */
  function RecordFor(r: Request, at: nat): Record {
    Record(r.version, r.snapshot.view.workspaceName, DigestOf(r.snapshot), r.attestation, at, r.publishedBy, r.reason,
           r.snapshot)
  }

  /** The request that restores a record. */
  function RequestFor(r: Record): Request {
    Request(r.version, r.snapshot, r.attestation, Some(r.digest), r.publishedBy, r.reason)
  }

  function Extended(core: Core, record: Record): Core {
    Core(core.records[record.version := record], core.byDigest[record.digest := record.version],
         core.history + [record.version])
  }

  function Noted(st: State, kind: EventKind, r: Request, at: nat): State {
    st.(events := st.events + [Event(kind, r.version, DigestOf(r.snapshot), at)],
        metrics := st.metrics.(size := |st.core.records|))
  }

  function Publish(verify: Verifier, st: State, r: Request, at: nat): (State, Result<Response, PublishError>) {
    var fault, digest, core, m := RequestFault(verify, r), DigestOf(r.snapshot), st.core, st.metrics;
    if fault.Some? then
      (Noted(st.(metrics := m.(invalid := SatAdd(m.invalid, 1))), RejectedEvent, r, at),
       Err(InvalidRequest(fault.value)))
    else if r.version in core.records && core.records[r.version].digest == digest then
      (Noted(st.(metrics := m.(idempotent := SatAdd(m.idempotent, 1))), UnchangedEvent, r, at),
       Ok(Response(AlreadyPublished, core.records[r.version], None)))
    else if r.version in core.records then
      (Noted(st.(metrics := m.(conflict := SatAdd(m.conflict, 1))), RejectedEvent, r, at),
       Err(VersionAlreadyExists(core.records[r.version].version, core.records[r.version].digest)))
    else if digest in core.byDigest then
      (Noted(st.(metrics := m.(conflict := SatAdd(m.conflict, 1))), RejectedEvent, r, at),
       Err(DigestAlreadyPublished(digest, core.byDigest[digest])))
    else
      var record := RecordFor(r, at);
      var previous := if core.history != [] && core.history[|core.history| - 1] in core.records
                      then Some(core.records[core.history[|core.history| - 1]].version) else None;
      (Noted(st.(core := Extended(core, record), metrics := m.(published := SatAdd(m.published, 1))), PublishedEvent, r,
             at), Ok(Response(NewlyPublished, record, previous)))
  }

  /** Restoring one record of a durable state: nothing is logged and a known version is a conflict. */
  function RestoreRecord(verify: Verifier, st: State, record: Record): (State, Option<PublishError>) {
    var fault, core := RequestFault(verify, RequestFor(record)), st.core;
    if fault.Some? then (st, Some(InvalidRequest(fault.value)))
    else if record.version in core.records then
      (st, Some(VersionAlreadyExists(core.records[record.version].version, core.records[record.version].digest)))
    else if record.digest in core.byDigest then
      (st, Some(DigestAlreadyPublished(record.digest, core.byDigest[record.digest])))
    else
      var extended := Extended(core, record);
      var size := |extended.records|;
      (st.(core := extended, metrics := st.metrics.(published := Min(size, U64_MAX), size := size)), None)
  }

  /** The records in publication order. */
  function Exported(core: Core, versions: seq<string>): seq<Record> {
    if versions == [] then []
    else
      var v := versions[|versions| - 1];
      Exported(core, versions[..|versions| - 1]) + if v in core.records then [core.records[v]] else []
  }

  /** Publishing each record in turn, stopping at the first rejection. */
  function Restore(verify: Verifier, st: State, rs: seq<Record>): (State, Option<PublishError>) {
    if rs == [] then (st, None)
    else
      var (before, error) := Restore(verify, st, rs[..|rs| - 1]);
      if error.Some? then (before, error)
      else
        var last := rs[|rs| - 1];
        var (after, response) := Publish(verify, before, RequestFor(last), last.publishedAt);
        (after, match response case Err(e) => Some(e) case Ok(_) => None)
  }

  class SnapshotControlService {
    var recordsByVersion: map<string, Record>
    var versionByDigest: map<string, string>
    var history: seq<string>
    var auditEvents: seq<Event>
    var metrics: Metrics

    ghost function Model(): State
      reads this
    {
      State(Core(recordsByVersion, versionByDigest, history), auditEvents, metrics)
    }

    constructor ()
      ensures Model() == EMPTY
    {
      recordsByVersion, versionByDigest, history, auditEvents := map[], map[], [], [];
      metrics := Metrics(0, 0, 0, 0, 0, 0, 0, 0);
    }

    method PushEvent(kind: EventKind, request: Request, at: nat)
      modifies this`auditEvents, this`metrics
      ensures Model() == Noted(old(Model()), kind, request, at)
    {
      auditEvents := auditEvents + [Event(kind, request.version, DigestOf(request.snapshot), at)];
      metrics := metrics.(size := |recordsByVersion|);
    }

    method PublishAt(verify: Verifier, request: Request, at: nat) returns (r: Result<Response, PublishError>)
      modifies this
      ensures (Model(), r) == Publish(verify, old(Model()), request, at)
    {
      var fault := RequestFault(verify, request);
      if fault.Some? {
        metrics := metrics.(invalid := SatAdd(metrics.invalid, 1));
        PushEvent(RejectedEvent, request, at);
        return Err(InvalidRequest(fault.value));
      }
      var digest := DigestOf(request.snapshot);
      if request.version in recordsByVersion {
        var existing := recordsByVersion[request.version];
        if existing.digest == digest {
          metrics := metrics.(idempotent := SatAdd(metrics.idempotent, 1));
          PushEvent(UnchangedEvent, request, at);
          return Ok(Response(AlreadyPublished, existing, None));
        }
        metrics := metrics.(conflict := SatAdd(metrics.conflict, 1));
        PushEvent(RejectedEvent, request, at);
        return Err(VersionAlreadyExists(existing.version, existing.digest));
      }
      if digest in versionByDigest {
        metrics := metrics.(conflict := SatAdd(metrics.conflict, 1));
        PushEvent(RejectedEvent, request, at);
        return Err(DigestAlreadyPublished(digest, versionByDigest[digest]));
      }
      var previous: Option<string> := None;
      if history != [] && history[|history| - 1] in recordsByVersion {
        previous := Some(recordsByVersion[history[|history| - 1]].version);
      }
      var record := RecordFor(request, at);
      versionByDigest := versionByDigest[digest := request.version];
      history := history + [request.version];
      recordsByVersion := recordsByVersion[request.version := record];
      metrics := metrics.(published := SatAdd(metrics.published, 1));
      PushEvent(PublishedEvent, request, at);
      return Ok(Response(NewlyPublished, record, previous));
    }

    method RestoreOne(verify: Verifier, record: Record) returns (error: Option<PublishError>)
      modifies this
      ensures (Model(), error) == RestoreRecord(verify, old(Model()), record)
    {
      var fault := RequestFault(verify, RequestFor(record));
      if fault.Some? {
        return Some(InvalidRequest(fault.value));
      }
      if record.version in recordsByVersion {
        var existing := recordsByVersion[record.version];
        return Some(VersionAlreadyExists(existing.version, existing.digest));
      }
      if record.digest in versionByDigest {
        return Some(DigestAlreadyPublished(record.digest, versionByDigest[record.digest]));
      }
      versionByDigest := versionByDigest[record.digest := record.version];
      history := history + [record.version];
      recordsByVersion := recordsByVersion[record.version := record];
      metrics := metrics.(published := Min(|recordsByVersion|, U64_MAX), size := |recordsByVersion|);
      return None;
    }

    method ExportBackup() returns (records: seq<Record>)
      modifies this`metrics
      ensures records == Exported(old(Model()).core, old(history))
      ensures metrics == old(metrics).(exports := SatAdd(old(metrics).exports, 1))
    {
      records := [];
      for i := 0 to |history|
        invariant records == Exported(Model().core, history[..i])
      {
        assert history[..i + 1][..i] == history[..i];
        if history[i] in recordsByVersion {
          records := records + [recordsByVersion[history[i]]];
        }
      }
      assert history[..|history|] == history;
      metrics := metrics.(exports := SatAdd(metrics.exports, 1));
    }

    method RestoreBackup(verify: Verifier, backup: seq<Record>) returns (error: Option<PublishError>)
      modifies this
      ensures
        var (after, e) := Restore(verify, old(Model()), backup);
        var m := after.metrics;
        && error == e
        && Model() == after.(metrics := if e.Some? then m.(restoreFailed := SatAdd(m.restoreFailed, 1))
                                        else m.(restored := SatAdd(m.restored, 1)))
    {
      for i := 0 to |backup|
        invariant (Model(), None) == Restore(verify, old(Model()), backup[..i])
      {
        assert backup[..i + 1][..i] == backup[..i];
        var record := backup[i];
        var publish := PublishAt(verify, RequestFor(record), record.publishedAt);
        if publish.Err? {
          RestoreStops(verify, old(Model()), backup, i + 1);
          metrics := metrics.(restoreFailed := SatAdd(metrics.restoreFailed, 1));
          return Some(publish.error);
        }
      }
      assert backup[..|backup|] == backup;
      metrics := metrics.(restored := SatAdd(metrics.restored, 1));
      return None;
    }
  }

  lemma {:induction false} RestoreStops(verify: Verifier, st: State, rs: seq<Record>, n: nat)
    requires n <= |rs| && Restore(verify, st, rs[..n]).1.Some?
    ensures Restore(verify, st, rs) == Restore(verify, st, rs[..n])
    decreases |rs|
  {
    if n == |rs| {
      assert rs[..n] == rs;
    } else {
      var front := rs[..|rs| - 1];
      assert front[..n] == rs[..n];
      RestoreStops(verify, st, front, n);
    }
  }

  // ----- the invariant of every reachable registry -----

  /** A record carries its own snapshot's digest and workspace, and would be accepted again. */
  predicate Sound(verify: Verifier, r: Record) {
    r.digest == DigestOf(r.snapshot) && r.workspaceName == r.snapshot.view.workspaceName
    && RequestFault(verify, RequestFor(r)) == None
  }

  /** The two indexes are inverse to each other and the history lists every version once. */
  ghost predicate Consistent(core: Core) {
    && (forall v :: v in core.records ==>
          && core.records[v].version == v
          && core.records[v].digest in core.byDigest && core.byDigest[core.records[v].digest] == v)
    && (forall d :: d in core.byDigest ==>
          core.byDigest[d] in core.records && core.records[core.byDigest[d]].digest == d)
    && NoDuplicates(core.history)
    && (forall v :: v in core.history <==> v in core.records)
  }

  ghost predicate AllSound(verify: Verifier, core: Core) {
    forall v :: v in core.records ==> Sound(verify, core.records[v])
  }

  ghost predicate Inv(verify: Verifier, st: State) {
    Consistent(st.core) && AllSound(verify, st.core)
  }

  lemma ExtendKeepsConsistent(core: Core, record: Record)
    requires Consistent(core) && record.version !in core.records && record.digest !in core.byDigest
    ensures Consistent(Extended(core, record))
  {
  }

  /** Asking for the digest one is publishing anyway changes no verdict. */
  lemma AcceptedAgain(verify: Verifier, r: Request, at: nat)
    requires RequestFault(verify, r) == None
    ensures Sound(verify, RecordFor(r, at))
  {
  }

  /** A valid request is new when neither its version nor its digest is published. */
  ghost predicate IsNew(core: Core, r: Request) {
    r.version !in core.records && forall v :: v in core.records ==> core.records[v].digest != DigestOf(r.snapshot)
  }

  predicate IsKnown(core: Core, r: Request) {
    r.version in core.records && core.records[r.version].digest == DigestOf(r.snapshot)
  }

  /**
   Publishing adds a record exactly when the request is valid and both its version and its digest are
   new, and is accepted without adding one exactly when that version already has that digest.
   */
  lemma PublishMeaning(verify: Verifier, st: State, r: Request, at: nat)
    requires Consistent(st.core)
    ensures
      var (after, response) := Publish(verify, st, r, at);
      var valid := RequestFault(verify, r) == None;
      && (response.Ok? <==> valid && (IsKnown(st.core, r) || IsNew(st.core, r)))
      && after.core == (if valid && IsNew(st.core, r) then Extended(st.core, RecordFor(r, at)) else st.core)
      && (response.Ok? ==> r.version in after.core.records && response.value.record == after.core.records[r.version])
      && after.metrics.size == |after.core.records|
      && |after.events| == |st.events| + 1
  {
    var digest := DigestOf(r.snapshot);
    assert digest in st.core.byDigest <==> exists v :: v in st.core.records && st.core.records[v].digest == digest;
  }

  ghost predicate Grows(a: Core, b: Core) {
    a.history <= b.history && forall v :: v in a.records ==> v in b.records && b.records[v] == a.records[v]
  }

  lemma ExtendKeepsSound(verify: Verifier, core: Core, record: Record)
    requires AllSound(verify, core) && Sound(verify, record) && record.version !in core.records
    ensures AllSound(verify, Extended(core, record)) && Grows(core, Extended(core, record))
  {
  }

  /** Publishing keeps the invariant and never changes a published record. */
  lemma PublishKeepsInv(verify: Verifier, st: State, r: Request, at: nat)
    requires Inv(verify, st)
    ensures Inv(verify, Publish(verify, st, r, at).0) && Grows(st.core, Publish(verify, st, r, at).0.core)
  {
    PublishMeaning(verify, st, r, at);
    if RequestFault(verify, r) == None && IsNew(st.core, r) {
      AcceptedAgain(verify, r, at);
      ExtendKeepsConsistent(st.core, RecordFor(r, at));
      ExtendKeepsSound(verify, st.core, RecordFor(r, at));
    }
  }

  datatype Op = PublishOp(request: Request, at: nat) | RestoreOp(backup: seq<Record>)

  ghost function Apply(verify: Verifier, st: State, op: Op): State {
    match op
    case PublishOp(request, at) => Publish(verify, st, request, at).0
    case RestoreOp(backup) => Restore(verify, st, backup).0
  }

  ghost function Run(verify: Verifier, st: State, ops: seq<Op>): State
    decreases ops
  {
    if ops == [] then st else Run(verify, Apply(verify, st, ops[0]), ops[1..])
  }

  lemma {:induction false} RestoreKeepsInv(verify: Verifier, st: State, rs: seq<Record>)
    requires Inv(verify, st)
    ensures Inv(verify, Restore(verify, st, rs).0) && Grows(st.core, Restore(verify, st, rs).0.core)
    decreases |rs|
  {
    if rs != [] {
      RestoreKeepsInv(verify, st, rs[..|rs| - 1]);
      var last := rs[|rs| - 1];
      PublishKeepsInv(verify, Restore(verify, st, rs[..|rs| - 1]).0, RequestFor(last), last.publishedAt);
    }
  }

  lemma StepKeepsInv(verify: Verifier, st: State, op: Op)
    requires Inv(verify, st)
    ensures Inv(verify, Apply(verify, st, op)) && Grows(st.core, Apply(verify, st, op).core)
  {
    match op {
      case PublishOp(request, at) => PublishKeepsInv(verify, st, request, at);
      case RestoreOp(backup) => RestoreKeepsInv(verify, st, backup);
    }
  }

  lemma GrowsTransitive(a: Core, b: Core, c: Core)
    requires Grows(a, b) && Grows(b, c)
    ensures Grows(a, c)
  {
  }

  /** Over every run of publications and restores the registry stays consistent and only grows. */
  lemma {:induction false} RegistryInvariant(verify: Verifier, st: State, ops: seq<Op>)
    requires Inv(verify, st)
    ensures Inv(verify, Run(verify, st, ops)) && Grows(st.core, Run(verify, st, ops).core)
    decreases ops
  {
    if ops != [] {
      var next := Apply(verify, st, ops[0]);
      StepKeepsInv(verify, st, ops[0]);
      RegistryInvariant(verify, next, ops[1..]);
      GrowsTransitive(st.core, next.core, Run(verify, next, ops[1..]).core);
    }
  }

  // ----- backup round trip -----

  /** `v` is among the first `n` versions published. */
  predicate Early(core: Core, n: nat, v: string)
    requires n <= |core.history|
  {
    v in core.history[..n]
  }

  /** The registry as it was after its first `n` publications. */
  ghost function Cut(core: Core, n: nat): Core
    requires n <= |core.history|
  {
    Core(map v | v in core.records && Early(core, n, v) :: core.records[v],
         map d | d in core.byDigest && Early(core, n, core.byDigest[d]) :: core.byDigest[d],
         core.history[..n])
  }

  lemma CutEnds(core: Core)
    requires Consistent(core)
    ensures Cut(core, |core.history|) == core && Cut(core, 0) == EMPTY.core
  {
    assert core.history[..|core.history|] == core.history;
  }

  lemma EarlyNext(core: Core, n: nat, v: string)
    requires NoDuplicates(core.history) && n < |core.history|
    ensures Early(core, n + 1, v) <==> Early(core, n, v) || v == core.history[n]
    ensures !Early(core, n, core.history[n])
  {
    assert core.history[..n + 1] == core.history[..n] + [core.history[n]];
  }

  lemma CutNextIsNew(core: Core, n: nat)
    requires Consistent(core) && n < |core.history|
    ensures core.history[n] in core.records
    ensures core.history[n] !in Cut(core, n).records && core.records[core.history[n]].digest !in Cut(core, n).byDigest
  {
    assert core.history[n] in core.history;
    EarlyNext(core, n, core.history[n]);
  }

  lemma CutNextRecords(core: Core, n: nat)
    requires Consistent(core) && n < |core.history| && core.history[n] in core.records
    ensures Cut(core, n + 1).records == Cut(core, n).records[core.history[n] := core.records[core.history[n]]]
  {
    forall v ensures Early(core, n + 1, v) <==> Early(core, n, v) || v == core.history[n] { EarlyNext(core, n, v); }
  }

  lemma CutNextDigests(core: Core, n: nat)
    requires Consistent(core) && n < |core.history| && core.history[n] in core.records
    ensures Cut(core, n + 1).byDigest == Cut(core, n).byDigest[core.records[core.history[n]].digest := core.history[n]]
  {
    forall v ensures Early(core, n + 1, v) <==> Early(core, n, v) || v == core.history[n] { EarlyNext(core, n, v); }
  }

  lemma CutNext(core: Core, n: nat)
    requires Consistent(core) && n < |core.history| && core.history[n] in core.records
    ensures Cut(core, n + 1) == Extended(Cut(core, n), core.records[core.history[n]])
  {
    CutNextRecords(core, n);
    CutNextDigests(core, n);
    assert core.history[..n + 1] == core.history[..n] + [core.history[n]];
  }

  lemma {:induction false} ExportedAll(core: Core, n: nat)
    requires Consistent(core) && n <= |core.history|
    ensures |Exported(core, core.history[..n])| == n
    ensures forall i :: 0 <= i < n ==> core.history[i] in core.records
                                       && Exported(core, core.history[..n])[i] == core.records[core.history[i]]
    decreases n
  {
    if n > 0 {
      ExportedAll(core, n - 1);
      assert core.history[..n][..n - 1] == core.history[..n - 1];
      assert core.history[n - 1] in core.history;
    }
  }

  lemma PublishNew(verify: Verifier, st: State, record: Record)
    requires Sound(verify, record) && record.version !in st.core.records && record.digest !in st.core.byDigest
    ensures
      var (after, response) := Publish(verify, st, RequestFor(record), record.publishedAt);
      response.Ok? && after.core == Extended(st.core, record)
  {
    assert RecordFor(RequestFor(record), record.publishedAt) == record;
  }

  lemma PublishKnown(verify: Verifier, st: State, record: Record)
    requires Sound(verify, record) && record.version in st.core.records && st.core.records[record.version] == record
    ensures
      var (after, response) := Publish(verify, st, RequestFor(record), record.publishedAt);
      response.Ok? && after.core == st.core
  {
  }

  /** Restoring the `n`-th published record onto the registry cut at `m >= n`. */
  lemma RestoreOne(verify: Verifier, st: State, core: Core, n: nat, m: nat)
    requires Consistent(core) && n < |core.history| && n <= m <= |core.history| && st.core == Cut(core, m)
    requires core.history[n] in core.records && Sound(verify, core.records[core.history[n]])
    ensures
      var record := core.records[core.history[n]];
      var (after, response) := Publish(verify, st, RequestFor(record), record.publishedAt);
      response.Ok? && after.core == Cut(core, Max(m, n + 1))
  {
    var record := core.records[core.history[n]];
    if m == n {
      CutNextIsNew(core, n);
      PublishNew(verify, st, record);
      CutNext(core, n);
    } else {
      assert core.history[n] in core.history[..m];
      assert Early(core, m, core.history[n]);
      PublishKnown(verify, st, record);
    }
  }

  lemma RestoreSnoc(verify: Verifier, st: State, rs: seq<Record>, n: nat)
    requires n < |rs| && Restore(verify, st, rs[..n]).1 == None
    ensures
      var (after, response) := Publish(verify, Restore(verify, st, rs[..n]).0, RequestFor(rs[n]), rs[n].publishedAt);
      response.Ok? ==> Restore(verify, st, rs[..n + 1]) == (after, None)
  {
    assert rs[..n + 1][..n] == rs[..n];
  }

  ghost predicate IsBackup(core: Core, backup: seq<Record>) {
    |backup| == |core.history|
    && forall i :: 0 <= i < |backup| ==> core.history[i] in core.records && backup[i] == core.records[core.history[i]]
  }

  /**
   Restoring a backup onto any earlier state of the same registry replays exactly what is missing.
   */
  lemma {:induction false} RestoreReplays(verify: Verifier, st: State, target: State, backup: seq<Record>, k: nat,
                                          n: nat)
    requires Inv(verify, target) && k <= |target.core.history| && n <= |target.core.history|
    requires st.core == Cut(target.core, k) && IsBackup(target.core, backup)
    ensures Restore(verify, st, backup[..n]).1 == None
    ensures Restore(verify, st, backup[..n]).0.core == Cut(target.core, Max(k, n))
    decreases n
  {
    if n > 0 {
      RestoreReplays(verify, st, target, backup, k, n - 1);
      var before := Restore(verify, st, backup[..n - 1]).0;
      RestoreOne(verify, before, target.core, n - 1, Max(k, n - 1));
      RestoreSnoc(verify, st, backup, n - 1);
    }
  }

  /**
   A backup restored from nothing rebuilds the records, the index and the history; restored onto its
   own registry it changes none of them.
   */
  lemma BackupRoundTrip(verify: Verifier, target: State)
    requires Inv(verify, target)
    ensures
      var backup := Exported(target.core, target.core.history);
      && Restore(verify, EMPTY, backup).1 == None && Restore(verify, EMPTY, backup).0.core == target.core
      && Restore(verify, target, backup).1 == None && Restore(verify, target, backup).0.core == target.core
  {
    var core := target.core;
    var backup := ExportIsBackup(core);
    CutEnds(core);
    RestoreReplays(verify, EMPTY, target, backup, 0, |backup|);
    RestoreReplays(verify, target, target, backup, |backup|, |backup|);
    assert backup[..|backup|] == backup;
  }

  lemma ExportIsBackup(core: Core) returns (backup: seq<Record>)
    requires Consistent(core)
    ensures backup == Exported(core, core.history) && IsBackup(core, backup)
  {
    ExportedAll(core, |core.history|);
    assert core.history[..|core.history|] == core.history;
    backup := Exported(core, core.history);
  }
}
