/** Admin authentication: a scan that compares every secret in full, roles, and a bounded audit log. */
module AdminAuth {
  import opened Basics
  import opened Ordering

  const MAX_TOKEN_ID_LEN: nat := 128
  const MAX_PRINCIPAL_LEN: nat := 128
  const MAX_SECRET_LEN: nat := 256
  const MAX_AUDIT_HISTORY: nat := 64

  // ----- comparing secrets -----

  /** Bitwise exclusive or of unsigned words; it needs no more bits than its operands. */
  function BitXor(a: nat, b: nat): nat
    decreases a + b
  {
    if a == 0 && b == 0 then 0 else 2 * BitXor(a / 2, b / 2) + if a % 2 == b % 2 then 0 else 1
  }

  /** Bitwise or of unsigned words. */
  function BitOr(a: nat, b: nat): nat
    decreases a + b
  {
    if a == 0 && b == 0 then 0 else 2 * BitOr(a / 2, b / 2) + if a % 2 == 1 || b % 2 == 1 then 1 else 0
  }

  lemma {:induction false} XorZero(a: nat, b: nat)
    ensures BitXor(a, b) == 0 <==> a == b
    decreases a + b
  {
    if a != 0 || b != 0 { XorZero(a / 2, b / 2); }
  }

  lemma {:induction false} OrZero(a: nat, b: nat)
    ensures BitOr(a, b) == 0 <==> a == 0 && b == 0
    decreases a + b
  {
    if a != 0 || b != 0 { OrZero(a / 2, b / 2); }
  }

  lemma ByteXorZero(a: bv8, b: bv8)
    ensures (a ^ b) as nat == 0 <==> a == b
  {
    var x := a ^ b;
    assert x == 0 <==> a == b;
    assert x as nat == 0 <==> x == 0;
  }

  function ByteAt(s: Bytes, i: nat): bv8 {
    if i < |s| then s[i] else 0
  }

  /**
   Looks at every position of the longer string, accumulating differences without ever stopping early;
   the result is true exactly when the strings are equal.
   */
  method ConstantTimeEq(left: Bytes, right: Bytes) returns (equal: bool)
    ensures equal <==> left == right
  {
    var n := Max(|left|, |right|);
    var diff := BitXor(|left|, |right|);
    XorZero(|left|, |right|);
    for i := 0 to n
      invariant diff == 0 <==> |left| == |right| && forall j :: 0 <= j < i ==> ByteAt(left, j) == ByteAt(right, j)
    {
      var l, r := ByteAt(left, i), ByteAt(right, i);
      ByteXorZero(l, r);
      OrZero(diff, (l ^ r) as nat);
      diff := BitOr(diff, (l ^ r) as nat);
    }
    equal := diff == 0;
    assert forall j :: 0 <= j < |left| ==> ByteAt(left, j) == left[j];
    assert forall j :: 0 <= j < |right| ==> ByteAt(right, j) == right[j];
  }

  // ----- roles, credentials and state -----

  datatype Permission =
    | ReadControlState | PublishSnapshots | RolloutSnapshots | ManageEmergencyMode | ExportForensics | PurgeHttpCache

  datatype Role = Viewer | Operator | Admin

  predicate Allows(role: Role, permission: Permission) {
    match role
    case Viewer => permission == ReadControlState
    case Operator => permission != PublishSnapshots && permission != PurgeHttpCache
    case Admin => true
  }

  datatype Credential = Credential(tokenId: string, principal: string, secret: string, role: Role)

  datatype Identity = Identity(tokenId: string, principal: string, role: Role)

  datatype InvalidCredential =
    | EmptyTokenId | TokenIdTooLong | DuplicateTokenId(tokenId: string) | EmptyPrincipal | PrincipalTooLong
    | EmptySecret | SecretHasSurroundingWhitespace | SecretTooLong | DuplicateSecret

  datatype AuditKind = Authenticated | AuthenticationFailed | Authorized | Denied

  datatype AuditEvent = AuditEvent(kind: AuditKind, principal: Option<string>, permission: Option<Permission>)

  datatype AuthMetrics = AuthMetrics(successes: nat, failures: nat, denied: nat, audited: nat)

  datatype AuthError = MissingCredentials | InvalidCredentials | PermissionDenied(permission: Permission)

  datatype AuthState = AuthState(known: map<string, Identity>, audit: seq<AuditEvent>, metrics: AuthMetrics)

  /** UTF-8 encoding, of which only injectivity matters here. */
  type Encoding = string -> Bytes

  ghost predicate Injective(encode: Encoding) {
    forall a, b :: encode(a) == encode(b) ==> a == b
  }

  function Fault(c: Credential, tokenIds: set<string>, secrets: set<string>): Option<InvalidCredential> {
    if Trim(c.tokenId) == [] then Some(EmptyTokenId)
    else if Utf8Len(c.tokenId) > MAX_TOKEN_ID_LEN then Some(TokenIdTooLong)
    else if c.tokenId in tokenIds then Some(DuplicateTokenId(c.tokenId))
    else if Trim(c.principal) == [] then Some(EmptyPrincipal)
    else if Utf8Len(c.principal) > MAX_PRINCIPAL_LEN then Some(PrincipalTooLong)
    else if Trim(c.secret) == [] then Some(EmptySecret)
    else if c.secret != Trim(c.secret) then Some(SecretHasSurroundingWhitespace)
    else if Utf8Len(c.secret) > MAX_SECRET_LEN then Some(SecretTooLong)
    else if c.secret in secrets then Some(DuplicateSecret)
    else None
  }

  function TokenIds(cs: seq<Credential>): set<string> {
    if cs == [] then {} else TokenIds(cs[..|cs| - 1]) + {cs[|cs| - 1].tokenId}
  }

  function Secrets(cs: seq<Credential>): set<string> {
    if cs == [] then {} else Secrets(cs[..|cs| - 1]) + {cs[|cs| - 1].secret}
  }

  function CredentialsFault(cs: seq<Credential>): Option<InvalidCredential> {
    if cs == [] then None
    else match CredentialsFault(cs[..|cs| - 1])
      case Some(fault) => Some(fault)
      case None => Fault(cs[|cs| - 1], TokenIds(cs[..|cs| - 1]), Secrets(cs[..|cs| - 1]))
  }

  function BySecret(cs: seq<Credential>): map<string, Identity> {
    if cs == [] then map[]
    else
      var c := cs[|cs| - 1];
      BySecret(cs[..|cs| - 1])[c.secret := Identity(c.tokenId, c.principal, c.role)]
  }

  lemma {:induction false} FaultStops(cs: seq<Credential>, i: nat)
    requires i <= |cs| && CredentialsFault(cs[..i]).Some?
    ensures CredentialsFault(cs) == CredentialsFault(cs[..i])
    decreases |cs|
  {
    if i < |cs| {
      assert cs[..|cs| - 1][..i] == cs[..i];
      FaultStops(cs[..|cs| - 1], i);
    } else {
      assert cs[..i] == cs;
    }
  }

  method ValidateCredentials(cs: seq<Credential>) returns (fault: Option<InvalidCredential>)
    ensures fault == CredentialsFault(cs)
  {
    var tokenIds: set<string>, secrets: set<string> := {}, {};
    for i := 0 to |cs|
      invariant CredentialsFault(cs[..i]) == None
      invariant tokenIds == TokenIds(cs[..i]) && secrets == Secrets(cs[..i])
    {
      assert cs[..i + 1][..i] == cs[..i];
      var c := cs[i];
      fault := CheckCredential(c, tokenIds, secrets);
      if fault.Some? {
        FaultStops(cs, i + 1);
        return;
      }
      tokenIds, secrets := tokenIds + {c.tokenId}, secrets + {c.secret};
    }
    assert cs[..|cs|] == cs;
    fault := None;
  }

  method CheckCredential(c: Credential, tokenIds: set<string>, secrets: set<string>)
    returns (fault: Option<InvalidCredential>)
    ensures fault == Fault(c, tokenIds, secrets)
  {
    if Trim(c.tokenId) == [] { return Some(EmptyTokenId); }
    if Utf8Len(c.tokenId) > MAX_TOKEN_ID_LEN { return Some(TokenIdTooLong); }
    if c.tokenId in tokenIds { return Some(DuplicateTokenId(c.tokenId)); }
    if Trim(c.principal) == [] { return Some(EmptyPrincipal); }
    if Utf8Len(c.principal) > MAX_PRINCIPAL_LEN { return Some(PrincipalTooLong); }
    if Trim(c.secret) == [] { return Some(EmptySecret); }
    if c.secret != Trim(c.secret) { return Some(SecretHasSurroundingWhitespace); }
    if Utf8Len(c.secret) > MAX_SECRET_LEN { return Some(SecretTooLong); }
    if c.secret in secrets { return Some(DuplicateSecret); }
    return None;
  }

  function Noted(s: AuthState, e: AuditEvent): AuthState {
    s.(audit := PushBounded(s.audit, e, MAX_AUDIT_HISTORY),
       metrics := s.metrics.(audited := SatAdd(s.metrics.audited, 1)))
  }

  /** Authentication as a map lookup. */
  function Authenticate(s: AuthState, token: Option<string>): (AuthState, Result<Identity, AuthError>) {
    if token.Some? && token.value in s.known then
      var identity := s.known[token.value];
      (Noted(s.(metrics := s.metrics.(successes := SatAdd(s.metrics.successes, 1))),
             AuditEvent(Authenticated, Some(identity.principal), None)), Ok(identity))
    else
      (Noted(s.(metrics := s.metrics.(failures := SatAdd(s.metrics.failures, 1))),
             AuditEvent(AuthenticationFailed, None, None)),
       Err(if token.None? then MissingCredentials else InvalidCredentials))
  }

  function Decided(s: AuthState, identity: Identity, permission: Permission): AuthState {
    if Allows(identity.role, permission)
    then Noted(s, AuditEvent(Authorized, Some(identity.principal), Some(permission)))
    else Noted(s.(metrics := s.metrics.(denied := SatAdd(s.metrics.denied, 1))),
               AuditEvent(Denied, Some(identity.principal), Some(permission)))
  }

  function Authorize(s: AuthState, token: Option<string>, permission: Permission)
    : (AuthState, Result<Identity, AuthError>)
  {
    match Authenticate(s, token)
    case (next, Err(error)) => (next, Err(error))
    case (next, Ok(identity)) =>
      (Decided(next, identity, permission),
       if Allows(identity.role, permission) then Ok(identity) else Err(PermissionDenied(permission)))
  }

  class AdminAuthService {
    var credentialsBySecret: map<string, Identity>
    var auditHistory: seq<AuditEvent>
    var metrics: AuthMetrics

    ghost function Model(): AuthState
      reads this
    {
      AuthState(credentialsBySecret, auditHistory, metrics)
    }

    constructor (credentials: seq<Credential>)
      ensures Model() == AuthState(BySecret(credentials), [], AuthMetrics(0, 0, 0, 0))
    {
      auditHistory, metrics := [], AuthMetrics(0, 0, 0, 0);
      var known: map<string, Identity> := map[];
      for i := 0 to |credentials|
        invariant known == BySecret(credentials[..i])
      {
        assert credentials[..i + 1][..i] == credentials[..i];
        var c := credentials[i];
        known := known[c.secret := Identity(c.tokenId, c.principal, c.role)];
      }
      assert credentials[..|credentials|] == credentials;
      credentialsBySecret := known;
    }

    /** Invalid credentials are refused with the first fault, valid ones give a new service. */
    static method FromCredentials(credentials: seq<Credential>) returns (r: Result<AdminAuthService, InvalidCredential>)
      ensures r.Err? <==> CredentialsFault(credentials).Some?
      ensures r.Err? ==> Some(r.error) == CredentialsFault(credentials)
      ensures r.Ok? ==> fresh(r.value) && r.value.Model() == Service(BySecret(credentials))
    {
      var fault := ValidateCredentials(credentials);
      if fault.Some? {
        return Err(fault.value);
      }
      var service := new AdminAuthService(credentials);
      return Ok(service);
    }

    method PushAudit(event: AuditEvent)
      modifies this
      ensures Model() == Noted(old(Model()), event)
    {
      if |auditHistory| == MAX_AUDIT_HISTORY {
        auditHistory := auditHistory[1..];
      }
      auditHistory := auditHistory + [event];
      metrics := metrics.(audited := SatAdd(metrics.audited, 1));
    }

    /** The full scan over every known secret refines the lookup. */
    method AuthenticateToken(encode: Encoding, token: Option<string>) returns (r: Result<Identity, AuthError>)
      requires Injective(encode)
      modifies this
      ensures (Model(), r) == Authenticate(old(Model()), token)
    {
      if token.None? {
        metrics := metrics.(failures := SatAdd(metrics.failures, 1));
        PushAudit(AuditEvent(AuthenticationFailed, None, None));
        return Err(MissingCredentials);
      }
      var found := Scan(encode, credentialsBySecret, token.value);
      if found.None? {
        metrics := metrics.(failures := SatAdd(metrics.failures, 1));
        PushAudit(AuditEvent(AuthenticationFailed, None, None));
        return Err(InvalidCredentials);
      }
      metrics := metrics.(successes := SatAdd(metrics.successes, 1));
      PushAudit(AuditEvent(Authenticated, Some(found.value.principal), None));
      return Ok(found.value);
    }

    method AuthorizeToken(encode: Encoding, token: Option<string>, permission: Permission)
      returns (r: Result<Identity, AuthError>)
      requires Injective(encode)
      modifies this
      ensures (Model(), r) == Authorize(old(Model()), token, permission)
    {
      var identity := AuthenticateToken(encode, token);
      if identity.Err? {
        return identity;
      }
      if !Allows(identity.value.role, permission) {
        metrics := metrics.(denied := SatAdd(metrics.denied, 1));
        PushAudit(AuditEvent(Denied, Some(identity.value.principal), Some(permission)));
        return Err(PermissionDenied(permission));
      }
      PushAudit(AuditEvent(Authorized, Some(identity.value.principal), Some(permission)));
      return identity;
    }
  }

  method SameSecret(encode: Encoding, a: string, b: string) returns (same: bool)
    requires Injective(encode)
    ensures same <==> a == b
  {
    same := ConstantTimeEq(encode(a), encode(b));
  }

  /** Compares the token with every known secret, keeping the last match. */
  method Scan(encode: Encoding, known: map<string, Identity>, token: string) returns (found: Option<Identity>)
    requires Injective(encode)
    ensures found == if token in known then Some(known[token]) else None
  {
    found := ScanEach(encode, known, SortedNames(known.Keys), token);
  }

  method ScanEach(encode: Encoding, known: map<string, Identity>, secrets: seq<string>, token: string)
    returns (found: Option<Identity>)
    requires Injective(encode) && forall s :: s in secrets ==> s in known
    ensures found == if token in secrets then Some(known[token]) else None
  {
    found := None;
    var i := 0;
    while i < |secrets|
      invariant 0 <= i <= |secrets|
      invariant found == if token in secrets[..i] then Some(known[token]) else None
    {
      var same := SameSecret(encode, token, secrets[i]);
      if same {
        found := Some(known[secrets[i]]);
      }
      assert secrets[..i + 1] == secrets[..i] + [secrets[i]];
      i := i + 1;
    }
    assert secrets[..|secrets|] == secrets;
  }

  // ----- runs -----

  datatype AuthOp = AuthenticateOp(token: Option<string>) | AuthorizeOp(token: Option<string>, permission: Permission)

  function Step(s: AuthState, op: AuthOp): AuthState {
    match op
    case AuthenticateOp(token) => Authenticate(s, token).0
    case AuthorizeOp(token, permission) => Authorize(s, token, permission).0
  }

  /** The events one operation causes. */
  function Events(known: map<string, Identity>, op: AuthOp): seq<AuditEvent> {
    [FirstEvent(known, op.token)]
    + if op.AuthenticateOp? || op.token.None? || op.token.value !in known then []
      else [SecondEvent(known[op.token.value], op.permission)]
  }

  function AllEvents(known: map<string, Identity>, ops: seq<AuthOp>): seq<AuditEvent> {
    if ops == [] then [] else AllEvents(known, ops[..|ops| - 1]) + Events(known, ops[|ops| - 1])
  }

  function AuthRun(s: AuthState, ops: seq<AuthOp>): AuthState {
    if ops == [] then s else Step(AuthRun(s, ops[..|ops| - 1]), ops[|ops| - 1])
  }

  function Service(known: map<string, Identity>): AuthState {
    AuthState(known, [], AuthMetrics(0, 0, 0, 0))
  }

  function KindCount(events: seq<AuditEvent>, kind: AuditKind): nat {
    if events == [] then 0
    else KindCount(events[..|events| - 1], kind) + if events[|events| - 1].kind == kind then 1 else 0
  }

  lemma KindCountSnoc(events: seq<AuditEvent>, e: AuditEvent, kind: AuditKind)
    ensures KindCount(events + [e], kind) == KindCount(events, kind) + if e.kind == kind then 1 else 0
  {
    assert (events + [e])[..|events|] == events;
  }

  /** State and trace agree: the log is the end of the trace and the counters count it, saturating. */
  ghost predicate Traces(s: AuthState, known: map<string, Identity>, events: seq<AuditEvent>) {
    && s.known == known && s.audit == LastN(events, MAX_AUDIT_HISTORY)
    && s.metrics.audited == Min(|events|, U64_MAX)
    && s.metrics.successes == Min(KindCount(events, Authenticated), U64_MAX)
    && s.metrics.failures == Min(KindCount(events, AuthenticationFailed), U64_MAX)
    && s.metrics.denied == Min(KindCount(events, Denied), U64_MAX)
  }

  lemma NotedTraces(s: AuthState, known: map<string, Identity>, events: seq<AuditEvent>, e: AuditEvent)
    requires Traces(s, known, events)
    ensures
      var m := s.metrics;
      var counted := match e.kind
        case Authenticated => m.(successes := SatAdd(m.successes, 1))
        case AuthenticationFailed => m.(failures := SatAdd(m.failures, 1))
        case Denied => m.(denied := SatAdd(m.denied, 1))
        case Authorized => m;
      Traces(Noted(s.(metrics := counted), e), known, events + [e])
  {
    PushKeepsLast(events, e, MAX_AUDIT_HISTORY);
    KindCountSnoc(events, e, Authenticated);
    KindCountSnoc(events, e, AuthenticationFailed);
    KindCountSnoc(events, e, Denied);
  }

  /** The event an authentication causes. */
  function FirstEvent(known: map<string, Identity>, token: Option<string>): AuditEvent {
    if token.Some? && token.value in known then AuditEvent(Authenticated, Some(known[token.value].principal), None)
    else AuditEvent(AuthenticationFailed, None, None)
  }

  lemma AuthenticateTraces(s: AuthState, known: map<string, Identity>, events: seq<AuditEvent>, token: Option<string>)
    requires Traces(s, known, events)
    ensures Traces(Authenticate(s, token).0, known, events + [FirstEvent(known, token)])
  {
    NotedTraces(s, known, events, FirstEvent(known, token));
  }

  function SecondEvent(identity: Identity, permission: Permission): AuditEvent {
    AuditEvent(if Allows(identity.role, permission) then Authorized else Denied, Some(identity.principal),
               Some(permission))
  }

  lemma DecidedTraces(s: AuthState, known: map<string, Identity>, events: seq<AuditEvent>, identity: Identity,
                      permission: Permission)
    requires Traces(s, known, events)
    ensures Traces(Decided(s, identity, permission), known, events + [SecondEvent(identity, permission)])
  {
    NotedTraces(s, known, events, SecondEvent(identity, permission));
  }

  lemma StepTraces(s: AuthState, known: map<string, Identity>, events: seq<AuditEvent>, op: AuthOp)
    requires Traces(s, known, events)
    ensures Traces(Step(s, op), known, events + Events(known, op))
  {
    var first, next := FirstEvent(known, op.token), Authenticate(s, op.token).0;
    AuthenticateTraces(s, known, events, op.token);
    if op.AuthorizeOp? && op.token.Some? && op.token.value in known {
      var identity := known[op.token.value];
      DecidedTraces(next, known, events + [first], identity, op.permission);
      assert events + [first] + [SecondEvent(identity, op.permission)] == events + Events(known, op);
    } else {
      assert Step(s, op) == next && events + [first] == events + Events(known, op);
    }
  }

  /**
   Over every run of a new service the audit log is the last 64 events that happened, and the counters
   are the numbers of successes, failures and denials among all of them.
   */
  lemma {:induction false} AuditLogIsRecentTrace(known: map<string, Identity>, ops: seq<AuthOp>)
    ensures Traces(AuthRun(Service(known), ops), known, AllEvents(known, ops))
    decreases |ops|
  {
    if ops != [] {
      AuditLogIsRecentTrace(known, ops[..|ops| - 1]);
      StepTraces(AuthRun(Service(known), ops[..|ops| - 1]), known, AllEvents(known, ops[..|ops| - 1]), ops[|ops| - 1]);
    }
  }

  lemma {:induction false} KnownSecrets(cs: seq<Credential>)
    ensures BySecret(cs).Keys == Secrets(cs)
    decreases |cs|
  {
    if cs != [] { KnownSecrets(cs[..|cs| - 1]); }
  }

  lemma {:induction false} SecretsMeaning(cs: seq<Credential>, token: string)
    ensures token in Secrets(cs) <==> exists i :: 0 <= i < |cs| && cs[i].secret == token
    decreases |cs|
  {
    if cs != [] {
      SecretsMeaning(cs[..|cs| - 1], token);
      if token == cs[|cs| - 1].secret { assert cs[|cs| - 1].secret == token; }
    }
  }

  lemma {:induction false} IdentityOf(cs: seq<Credential>, i: int)
    requires CredentialsFault(cs) == None && 0 <= i < |cs|
    ensures cs[i].secret in BySecret(cs)
    ensures BySecret(cs)[cs[i].secret] == Identity(cs[i].tokenId, cs[i].principal, cs[i].role)
    decreases |cs|
  {
    if i < |cs| - 1 {
      var front := cs[..|cs| - 1];
      IdentityOf(front, i);
      SecretsMeaning(front, cs[i].secret);
      assert front[i].secret == cs[i].secret;
    }
  }

  /** After valid credentials, a token is accepted exactly when it is some credential's secret, as that credential. */
  lemma AcceptedExactly(cs: seq<Credential>, token: string)
    requires CredentialsFault(cs) == None
    ensures token in BySecret(cs) <==> exists i :: 0 <= i < |cs| && cs[i].secret == token
    ensures forall i :: 0 <= i < |cs| && cs[i].secret == token ==>
      token in BySecret(cs) && BySecret(cs)[token] == Identity(cs[i].tokenId, cs[i].principal, cs[i].role)
  {
    KnownSecrets(cs);
    SecretsMeaning(cs, token);
    forall i | 0 <= i < |cs| && cs[i].secret == token
      ensures token in BySecret(cs) && BySecret(cs)[token] == Identity(cs[i].tokenId, cs[i].principal, cs[i].role)
    {
      IdentityOf(cs, i);
    }
  }
}
