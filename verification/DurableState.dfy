/** The registry's durable form: a checksummed envelope around serialised records and recent events. */
module DurableState {
  import opened Basics
  import opened Compiler
  import opened Registry

  const SNAPSHOT_REGISTRY_STATE_VERSION: nat := 1

  /** A record with its snapshot reduced to a view. */
  datatype DurableRecord = DurableRecord(
    version: string, workspaceName: string, digest: string, attestation: Option<string>, publishedAt: nat,
    publishedBy: Option<string>, reason: Option<string>, view: View)

  datatype Payload = Payload(records: seq<DurableRecord>, events: seq<Event>)

  datatype Envelope = Envelope(version: nat, payload: string, checksum: string)

  datatype StateError =
    | UnsupportedVersion(version: nat)
    | ChecksumMismatch
    | Deserialize
    | SnapshotCompile(error: CompileError)
    | Publication(cause: PublishError)

  /** Serialisation and hashing, which this model takes as given. */
  datatype Codec = Codec(encode: Payload -> string, decode: string -> Option<Payload>, sha: string -> string)

  ghost predicate Lossless(codec: Codec) {
    forall p :: codec.decode(codec.encode(p)) == Some(p)
  }

  function PruneEvents(events: seq<Event>, max: nat): seq<Event> {
    if max == 0 then [] else events[SatSub(|events|, max)..]
  }

  function ToDurable(r: Record): DurableRecord {
    DurableRecord(r.version, r.workspaceName, r.digest, r.attestation, r.publishedAt, r.publishedBy, r.reason,
                  r.snapshot.view)
  }

  function FromDurable(env: Env, d: DurableRecord): Result<Record, CompileError> {
    match FromView(env, d.view)
    case Err(error) => Err(error)
    case Ok(snapshot) =>
      Ok(Record(d.version, d.workspaceName, d.digest, d.attestation, d.publishedAt, d.publishedBy, d.reason, snapshot))
  }

  function Export(codec: Codec, st: State, maxEvents: nat): Envelope {
    var payload := codec.encode(Payload(Map(Exported(st.core, st.core.history), ToDurable),
                                        PruneEvents(st.events, maxEvents)));
    Envelope(SNAPSHOT_REGISTRY_STATE_VERSION, payload, codec.sha(payload))
  }

  type Thawer = DurableRecord -> Result<Record, CompileError>

  function Thaw(env: Env): Thawer {
    (d: DurableRecord) => FromDurable(env, d)
  }

  /** Rebuilding a registry record by record, stopping at the first failure. */
  function Rehydrate(thaw: Thawer, verify: Verifier, ds: seq<DurableRecord>): Result<State, StateError> {
    if ds == [] then Ok(EMPTY)
    else
      match Rehydrate(thaw, verify, ds[..|ds| - 1])
      case Err(error) => Err(error)
      case Ok(st) => RehydrateOne(thaw, verify, st, ds[|ds| - 1])
  }

  function RehydrateOne(thaw: Thawer, verify: Verifier, st: State, d: DurableRecord): Result<State, StateError> {
    match thaw(d)
    case Err(error) => Err(SnapshotCompile(error))
    case Ok(record) =>
      var (after, error) := RestoreRecord(verify, st, record);
      if error.Some? then Err(Publication(error.value)) else Ok(after)
  }

  function Import(env: Env, verify: Verifier, codec: Codec, envelope: Envelope, maxEvents: nat)
    : Result<State, StateError>
  {
    ImportWith(Thaw(env), verify, codec, envelope, maxEvents)
  }

  function ImportWith(thaw: Thawer, verify: Verifier, codec: Codec, envelope: Envelope, maxEvents: nat)
    : Result<State, StateError>
  {
    if envelope.version != SNAPSHOT_REGISTRY_STATE_VERSION then Err(UnsupportedVersion(envelope.version))
    else if codec.sha(envelope.payload) != envelope.checksum then Err(ChecksumMismatch)
    else
      match codec.decode(envelope.payload)
      case None => Err(Deserialize)
      case Some(payload) =>
        match Rehydrate(thaw, verify, payload.records)
        case Err(error) => Err(error)
        case Ok(st) =>
          Ok(st.(events := PruneEvents(payload.events, maxEvents),
                 metrics := st.metrics.(restored := SatAdd(st.metrics.restored, 1), size := |st.core.records|)))
  }

  method RestoreDurableState(env: Env, verify: Verifier, codec: Codec, envelope: Envelope, maxEvents: nat)
    returns (r: Result<SnapshotControlService, StateError>)
    ensures
      match Import(env, verify, codec, envelope, maxEvents)
      case Err(error) => r == Err(error)
      case Ok(st) => r.Ok? && fresh(r.value) && r.value.Model() == st
  {
    if envelope.version != SNAPSHOT_REGISTRY_STATE_VERSION {
      return Err(UnsupportedVersion(envelope.version));
    }
    if codec.sha(envelope.payload) != envelope.checksum {
      return Err(ChecksumMismatch);
    }
    var payload := codec.decode(envelope.payload);
    if payload.None? {
      return Err(Deserialize);
    }
    r := RebuildService(Thaw(env), verify, payload.value.records);
    if r.Ok? {
      var service := r.value;
      service.auditEvents := PruneEvents(payload.value.events, maxEvents);
      service.metrics := service.metrics.(restored := SatAdd(service.metrics.restored, 1),
                                          size := |service.recordsByVersion|);
    }
  }

  method RebuildService(thaw: Thawer, verify: Verifier, ds: seq<DurableRecord>)
    returns (r: Result<SnapshotControlService, StateError>)
    ensures
      match Rehydrate(thaw, verify, ds)
      case Err(error) => r == Err(error)
      case Ok(st) => r.Ok? && fresh(r.value) && r.value.Model() == st
  {
    var service := new SnapshotControlService();
    for i := 0 to |ds|
      invariant fresh(service)
      invariant Rehydrate(thaw, verify, ds[..i]) == Ok(service.Model())
    {
      RehydrateSnoc(thaw, verify, ds, i);
      var error := AddRecord(service, thaw, verify, ds[i]);
      if error.Some? {
        RehydrateStops(thaw, verify, ds, i + 1);
        return Err(error.value);
      }
    }
    assert ds[..|ds|] == ds;
    r := Ok(service);
  }

  /** Reads one record back and restores it. */
  method AddRecord(service: SnapshotControlService, thaw: Thawer, verify: Verifier, d: DurableRecord)
    returns (error: Option<StateError>)
    modifies service
    ensures
      match RehydrateOne(thaw, verify, old(service.Model()), d)
      case Ok(st) => error == None && service.Model() == st
      case Err(e) => error == Some(e)
  {
    var record := thaw(d);
    if record.Err? {
      return Some(SnapshotCompile(record.error));
    }
    var failure := service.RestoreOne(verify, record.value);
    error := if failure.Some? then Some(Publication(failure.value)) else None;
  }

  lemma {:induction false} RehydrateStops(thaw: Thawer, verify: Verifier, ds: seq<DurableRecord>, n: nat)
    requires n <= |ds| && Rehydrate(thaw, verify, ds[..n]).Err?
    ensures Rehydrate(thaw, verify, ds) == Rehydrate(thaw, verify, ds[..n])
    decreases |ds|
  {
    if n == |ds| {
      assert ds[..n] == ds;
    } else {
      var front := ds[..|ds| - 1];
      assert front[..n] == ds[..n];
      RehydrateStops(thaw, verify, front, n);
    }
  }

  // ----- the round trip -----

  /** Every published snapshot came out of the compiler; its fields admit no other origin. */
  ghost predicate AllCompiled(env: Env, core: Core) {
    forall v :: v in core.records ==> exists c :: Compile(env, c) == Ok(core.records[v].snapshot)
  }

  ghost predicate AllRestorable(env: Env, core: Core) {
    forall v :: v in core.records ==> Restorable(env, core.records[v].snapshot)
  }

  /** A record written out and read back is itself, or fails with the validation error. */
  lemma RecordRoundTrip(env: Env, r: Record)
    requires exists c :: Compile(env, c) == Ok(r.snapshot)
    ensures FromDurable(env, ToDurable(r)) == if Restorable(env, r.snapshot) then Ok(r) else Err(Validation)
  {
    var c :| Compile(env, c) == Ok(r.snapshot);
    RoundTrip(env, c);
  }

  /** Reading a record back gives the record, or the validation error if it is not `good`. */
  ghost predicate ThawsGood(thaw: Thawer, core: Core, good: Record -> bool) {
    forall v :: v in core.records ==>
      thaw(ToDurable(core.records[v])) == if good(core.records[v]) then Ok(core.records[v]) else Err(Validation)
  }

  lemma RestoreNew(verify: Verifier, st: State, record: Record)
    requires Sound(verify, record) && record.version !in st.core.records && record.digest !in st.core.byDigest
    ensures RestoreRecord(verify, st, record).1 == None
    ensures RestoreRecord(verify, st, record).0.core == Extended(st.core, record)
  {
  }

  lemma RehydrateSnoc(thaw: Thawer, verify: Verifier, ds: seq<DurableRecord>, n: nat)
    requires n < |ds|
    ensures
      var before := Rehydrate(thaw, verify, ds[..n]);
      Rehydrate(thaw, verify, ds[..n + 1]) == if before.Ok? then RehydrateOne(thaw, verify, before.value, ds[n])
                                              else before
  {
    assert ds[..n + 1][..n] == ds[..n];
  }

  ghost predicate GoodUpTo(core: Core, good: Record -> bool, n: nat) {
    forall i :: 0 <= i < n <= |core.history| && core.history[i] in core.records ==> good(core.records[core.history[i]])
  }

  lemma GoodSnoc(core: Core, good: Record -> bool, n: nat)
    requires n < |core.history| && core.history[n] in core.records
    ensures GoodUpTo(core, good, n + 1) <==> GoodUpTo(core, good, n) && good(core.records[core.history[n]])
  {
  }

  /** Record `i` of the history was written out as `ds[i]`, would be accepted again, and reads back if it is good. */
  ghost predicate Ready(thaw: Thawer, verify: Verifier, core: Core, ds: seq<DurableRecord>, good: Record -> bool,
                        i: int)
  {
    && 0 <= i < |core.history| == |ds| && core.history[i] in core.records
    && var record := core.records[core.history[i]];
       && ds[i] == ToDurable(record) && Sound(verify, record)
       && thaw(ds[i]) == if good(record) then Ok(record) else Err(Validation)
  }

  /** One record more: the registry as it was one record later, or the validation error. */
  lemma RehydrateNext(thaw: Thawer, verify: Verifier, st: State, core: Core, ds: seq<DurableRecord>,
                      good: Record -> bool, i: int)
    requires Consistent(core) && Ready(thaw, verify, core, ds, good, i) && st.core == Cut(core, i)
    ensures
      var r := RehydrateOne(thaw, verify, st, ds[i]);
      if good(core.records[core.history[i]]) then r.Ok? && r.value.core == Cut(core, i + 1)
      else r == Err(SnapshotCompile(Validation))
  {
    CutNextIsNew(core, i);
    CutNext(core, i);
    RestoreNew(verify, st, core.records[core.history[i]]);
  }

  ghost predicate RehydratesTo(r: Result<State, StateError>, core: Core, good: Record -> bool, n: nat)
    requires n <= |core.history|
  {
    if GoodUpTo(core, good, n) then r.Ok? && r.value.core == Cut(core, n) else r == Err(SnapshotCompile(Validation))
  }

  lemma RehydrateStep(thaw: Thawer, verify: Verifier, core: Core, ds: seq<DurableRecord>, good: Record -> bool, n: nat)
    requires Consistent(core) && Ready(thaw, verify, core, ds, good, n)
    requires RehydratesTo(Rehydrate(thaw, verify, ds[..n]), core, good, n)
    ensures RehydratesTo(Rehydrate(thaw, verify, ds[..n + 1]), core, good, n + 1)
  {
    var before := Rehydrate(thaw, verify, ds[..n]);
    RehydrateSnoc(thaw, verify, ds, n);
    GoodSnoc(core, good, n);
    if GoodUpTo(core, good, n) {
      RehydrateNext(thaw, verify, before.value, core, ds, good, n);
    }
  }

  /** Rehydrating the first `n` records rebuilds the registry as it was, or fails at one of them. */
  lemma {:induction false} RehydratePrefix(thaw: Thawer, verify: Verifier, core: Core, ds: seq<DurableRecord>,
                                           good: Record -> bool, n: nat)
    requires Consistent(core) && n <= |ds| == |core.history|
    requires forall i :: 0 <= i < |ds| ==> Ready(thaw, verify, core, ds, good, i)
    ensures RehydratesTo(Rehydrate(thaw, verify, ds[..n]), core, good, n)
    decreases n
  {
    if n == 0 {
      CutEnds(core);
    } else {
      RehydratePrefix(thaw, verify, core, ds, good, n - 1);
      RehydrateStep(thaw, verify, core, ds, good, n - 1);
    }
  }

  /** Pruning twice keeps the newest events both retentions allow. */
  lemma PruneTwice(events: seq<Event>, n: nat, m: nat)
    ensures PruneEvents(PruneEvents(events, n), m) == LastN(events, Min(n, m))
  {
  }

  /**
   Exporting and importing rebuilds the records, the index and the history and keeps exactly the
   newest events both retentions allow, precisely when every published snapshot is restorable.
   Otherwise the import as a whole fails on validation.
   */
  lemma DurableRoundTrip(env: Env, verify: Verifier, codec: Codec, st: State, n: nat, m: nat)
    requires Lossless(codec) && Inv(verify, st) && AllCompiled(env, st.core)
    ensures
      var r := Import(env, verify, codec, Export(codec, st, n), m);
      if AllRestorable(env, st.core)
      then r.Ok? && r.value.core == st.core && r.value.events == LastN(st.events, Min(n, m))
      else r == Err(SnapshotCompile(Validation))
  {
    var core := st.core;
    var good := (r: Record) => Restorable(env, r.snapshot);
    RecordsThaw(env, core, good);
    AllGood(env, core, good);
    ImportRebuilds(Thaw(env), verify, codec, st, n, m, good);
  }

  lemma ImportRebuilds(thaw: Thawer, verify: Verifier, codec: Codec, st: State, n: nat, m: nat, good: Record -> bool)
    requires Lossless(codec) && Inv(verify, st) && ThawsGood(thaw, st.core, good)
    ensures
      var r := ImportWith(thaw, verify, codec, Export(codec, st, n), m);
      if GoodUpTo(st.core, good, |st.core.history|)
      then r.Ok? && r.value.core == st.core && r.value.events == LastN(st.events, Min(n, m))
      else r == Err(SnapshotCompile(Validation))
  {
    PruneTwice(st.events, n, m);
    var backup := ExportIsBackup(st.core);
    BackupReady(thaw, verify, st.core, backup, good);
    RehydrateAll(thaw, verify, st.core, Map(backup, ToDurable), good);
  }

  lemma BackupReady(thaw: Thawer, verify: Verifier, core: Core, backup: seq<Record>, good: Record -> bool)
    requires Consistent(core) && IsBackup(core, backup) && ThawsGood(thaw, core, good)
    requires AllSound(verify, core)
    ensures
      var ds := Map(backup, ToDurable);
      |ds| == |core.history| && forall i :: 0 <= i < |ds| ==> Ready(thaw, verify, core, ds, good, i)
  {
  }

  lemma RehydrateAll(thaw: Thawer, verify: Verifier, core: Core, ds: seq<DurableRecord>, good: Record -> bool)
    requires Consistent(core) && |ds| == |core.history|
    requires forall i :: 0 <= i < |ds| ==> Ready(thaw, verify, core, ds, good, i)
    ensures
      var r := Rehydrate(thaw, verify, ds);
      if GoodUpTo(core, good, |core.history|) then r.Ok? && r.value.core == core
      else r == Err(SnapshotCompile(Validation))
  {
    RehydratePrefix(thaw, verify, core, ds, good, |ds|);
    assert ds[..|ds|] == ds;
    CutEnds(core);
  }

  lemma RecordsThaw(env: Env, core: Core, good: Record -> bool)
    requires AllCompiled(env, core) && forall r :: good(r) <==> Restorable(env, r.snapshot)
    ensures ThawsGood(Thaw(env), core, good)
  {
    forall v | v in core.records
      ensures Thaw(env)(ToDurable(core.records[v])) == if good(core.records[v]) then Ok(core.records[v])
        else Err(Validation)
    {
      RecordRoundTrip(env, core.records[v]);
    }
  }

  lemma AllGood(env: Env, core: Core, good: Record -> bool)
    requires Consistent(core) && forall r :: good(r) <==> Restorable(env, r.snapshot)
    ensures GoodUpTo(core, good, |core.history|) <==> AllRestorable(env, core)
  {
    if !AllRestorable(env, core) {
      var v :| v in core.records && !Restorable(env, core.records[v].snapshot);
      assert v in core.history;
      var i :| 0 <= i < |core.history| && core.history[i] == v;
      assert !good(core.records[core.history[i]]);
    }
  }
}
