/**
 The session authority: one function per database transaction of the
 authentication service, its locks, its device pairing and its lifetime policy.
 Each function maps the committed tables before to the committed tables after;
 a transaction that raises leaves them as they were.

 Random identifiers and secrets come from a counter, so no value is drawn twice.
 Digests are injective and left implicit. The clock never goes back.
 */
module Sessions {
  import opened Options
  import opened Directories
  import opened Administration

  type Sid = nat
  type Token = nat
  type Kid = nat
  type Duration = r: real | r >= 0.0 witness 0.0

  const ACCESS_TTL := 300
  const IDLE_TTL := 24 * 60 * 60
  const ABSOLUTE_TTL := 30 * 24 * 60 * 60
  const PAIR_TTL := 300.0
  const SOCKET_TTL := 30.0
  const UNLOCK_TTL := 300.0
  const MAX_PENDING := 20
  const MIN_IDLE := 600
  const MAX_IDLE := 30 * 86400
  const MAX_ABSOLUTE := 365 * 86400

  datatype Policy = Policy(idle: int, absolute: int, revision: nat)

  datatype Session = Session(
    principal: Pid, created: real, lastSeen: real, expires: real, idle: int,
    revoked: bool, locked: bool, generation: nat, grant: Option<set<Scope>>)

  datatype RefreshToken = RefreshToken(session: Sid, consumed: bool)
  datatype SigningKey = SigningKey(secret: nat, retiredAfter: Option<real>)

  /** A signed access token: its header key, its claims and the secret that signed it. */
  datatype AccessToken = AccessToken(
    kid: Kid, sub: Pid, sid: Sid, issuedAt: int, exp: int, version: nat, generation: nat, signature: nat)

  datatype Purpose = Pair | Socket
  datatype Proof = Proof(
    purpose: Purpose, sponsor: Sid, principal: Pid, version: nat, scopes: set<Scope>,
    expires: real, consumed: bool, path: string, legacy: bool)

  datatype UnlockFlow = UnlockFlow(adapter: string, session: Sid, refresh: Token, version: nat, expires: real)

  datatype Database = Database(
    clock: real, nonce: nat, hostId: nat,
    dir: Directory, policy: Policy,
    sessions: map<Sid, Session>,
    refresh: map<Token, RefreshToken>,
    keys: map<Kid, SigningKey>, activeKey: Kid,
    proofs: map<Token, Proof>,
    flows: map<Token, UnlockFlow>)

  /** What every transaction that signs relies on: the active key is present. */
  predicate Usable(db: Database) {
    db.activeKey in db.keys
  }

  /** A host that has just created its tables and its first signing key. */
  function Initial(clock: real, hostId: nat, dir: Directory): Database {
    Database(clock, 2, hostId, dir, Policy(IDLE_TTL, ABSOLUTE_TTL, 1), map[], map[],
             map[0 := SigningKey(1, None)], 0, map[], map[])
  }

  // ------------------------------------------------------------- lifetimes

  function Min(a: real, b: real): real { if a <= b then a else b }

  function MinInt(a: int, b: int): int { if a <= b then a else b }

  function Ceiling(r: real): int { -((-r).Floor) }

  function Deadline(policy: Policy, s: Session): real {
    Min(Min(s.expires, s.created + policy.absolute as real), s.lastSeen + MinInt(s.idle, policy.idle) as real)
  }

  /** The end of the session as its own row records it. */
  function StoredDeadline(s: Session): real {
    Min(s.expires, s.lastSeen + s.idle as real)
  }

  function AbsoluteRemaining(db: Database, sid: Sid): int
    requires sid in db.sessions
  {
    var s := db.sessions[sid];
    var left := Ceiling(Min(s.expires, s.created + db.policy.absolute as real) - db.clock);
    if left > 0 then left else 0
  }

  predicate Dead(db: Database, sid: Sid)
    requires sid in db.sessions
  {
    db.sessions[sid].revoked || Deadline(db.policy, db.sessions[sid]) <= db.clock
  }

  datatype Live = Live(id: Pid, scopes: set<Scope>, version: nat)

  function LivePrincipal(db: Database, sid: Sid, allowLocked: bool): Option<Live> {
    if sid !in db.sessions || Dead(db, sid) then None
    else
      var s := db.sessions[sid];
      if s.locked && !allowLocked then None
      else if s.principal !in db.dir.principals || !db.dir.principals[s.principal].enabled then None
      else
        var scopes := EffectiveScopes(db.dir, s.principal, db.clock);
        var granted := if s.grant.Some? then scopes * s.grant.value else scopes;
        Some(Live(s.principal, granted, db.dir.principals[s.principal].version))
  }

  // ----------------------------------------------------------- credentials

  datatype Credentials = Credentials(access: AccessToken, refresh: Token, sid: Sid, expiresIn: int, refreshExpiresIn: int)

  function Issue(db: Database, id: Pid, version: nat, sid: Sid): AccessToken
    requires Usable(db) && sid in db.sessions
  {
    var s := db.sessions[sid];
    var now := db.clock.Floor;
    var exp := MinInt(now + ACCESS_TTL, Deadline(db.policy, s).Floor);
    AccessToken(db.activeKey, id, sid, now, exp, version, s.generation, db.keys[db.activeKey].secret)
  }

  function CredentialsFor(db: Database, access: AccessToken, raw: Token, sid: Sid): Credentials
    requires sid in db.sessions
  {
    var left := access.exp - db.clock.Floor;
    Credentials(access, raw, sid, if left > 0 then left else 0, AbsoluteRemaining(db, sid))
  }

  datatype Resolved = Resolved(live: Live, sid: Sid, expiresAt: real, locked: bool)

  /** Section 4.1.4 of RFC 7519: a token is refused on and after its expiry. */
  function Resolve(db: Database, t: AccessToken, allowLocked: bool): Option<Resolved> {
    if t.kid !in db.keys || db.keys[t.kid].secret != t.signature then None
    else if t.exp as real <= db.clock || db.clock < t.issuedAt as real then None
    else if t.sid !in db.sessions || db.sessions[t.sid].principal != t.sub then None
    else if t.generation != db.sessions[t.sid].generation then None
    else
      var live := LivePrincipal(db, t.sid, allowLocked);
      if live.None? then None
      else Some(Resolved(live.value, t.sid, Min(t.exp as real, Deadline(db.policy, db.sessions[t.sid])), db.sessions[t.sid].locked))
  }

  datatype Outcome = Outcome(db: Database, credentials: Option<Credentials>)

  function NewSession(db: Database, id: Pid, grant: Option<set<Scope>>): Session {
    Session(id, db.clock, db.clock, db.clock + db.policy.absolute as real, db.policy.idle, false, false, 0, grant)
  }

  /** Inserts a session and its first refresh token and signs its first access token. */
  function Enrol(db: Database, id: Pid, version: nat, grant: Option<set<Scope>>): Outcome
    requires Usable(db)
  {
    var sid, raw := db.nonce, db.nonce + 1;
    var db1 := db.(nonce := db.nonce + 2,
                   sessions := db.sessions[sid := NewSession(db, id, grant)],
                   refresh := db.refresh[raw := RefreshToken(sid, false)]);
    Outcome(db1, Some(CredentialsFor(db1, Issue(db1, id, version, sid), raw, sid)))
  }

  /** The second half of a sign-in: the principal was verified before, and may have been disabled since. */
  function LoginTx(db: Database, id: Pid, version: nat): Outcome
    requires Usable(db)
  {
    Enrol(db, id, version, None)
  }

  datatype Answer = Granted(credentials: Credentials) | Denied | Reused | SessionLocked

  function RevokeOne(db: Database, sid: Sid): Database {
    if sid in db.sessions then db.(sessions := db.sessions[sid := db.sessions[sid].(revoked := true)]) else db
  }

  function RefreshTx(db: Database, raw: Token): (Database, Answer)
    requires Usable(db)
  {
    if raw !in db.refresh then (db, Denied)
    else
      var sid := db.refresh[raw].session;
      if db.refresh[raw].consumed then (RevokeOne(db, sid), Reused)
      else
        var live := LivePrincipal(db, sid, false);
        if live.None? then
          (db, if sid in db.sessions && db.sessions[sid].locked && LivePrincipal(db, sid, true).Some? then SessionLocked else Denied)
        else
          var next := db.nonce;
          var db1 := db.(nonce := next + 1,
                         refresh := db.refresh[raw := RefreshToken(sid, true)][next := RefreshToken(sid, false)],
                         sessions := db.sessions[sid := db.sessions[sid].(lastSeen := db.clock)]);
          (db1, Granted(CredentialsFor(db1, Issue(db1, live.value.id, live.value.version, sid), next, sid)))
  }

  // -------------------------------------------------------- revocation, keys

  function RevokeOwned(sessions: map<Sid, Session>, ps: set<Pid>): map<Sid, Session> {
    map sid | sid in sessions :: if sessions[sid].principal in ps then sessions[sid].(revoked := true) else sessions[sid]
  }

  function RevokeTx(db: Database, sid: Sid, id: Pid): Database {
    if sid in db.sessions && db.sessions[sid].principal == id then RevokeOne(db, sid) else db
  }

  function RevokeAllTx(db: Database, id: Pid): Database {
    db.(sessions := RevokeOwned(db.sessions, {id}))
  }

  function AdministerTx(db: Database, op: Operation): Database {
    var c := Apply(db.dir, db.clock, op);
    if c.None? then db else db.(dir := c.value.dir, sessions := RevokeOwned(db.sessions, c.value.revoked))
  }

  function RotateTx(db: Database): Database {
    var retired := if db.activeKey in db.keys
                   then db.keys[db.activeKey := db.keys[db.activeKey].(retiredAfter := Some(db.clock + ACCESS_TTL as real))]
                   else db.keys;
    var kid, secret := db.nonce, db.nonce + 1;
    var inserted := retired[kid := SigningKey(secret, None)];
    db.(nonce := db.nonce + 2, activeKey := kid,
        keys := map k | k in inserted && Current(inserted[k].retiredAfter, db.clock) :: inserted[k])
  }

  // ------------------------------------------------------------------ policy

  function Tightened(s: Session, idle: int, absolute: int): Session {
    s.(idle := MinInt(s.idle, idle), expires := Min(s.expires, s.created + absolute as real))
  }

  function Reaped(s: Session, now: real): Session {
    if !s.revoked && (s.expires <= now || s.lastSeen + s.idle as real <= now) then s.(revoked := true) else s
  }

  predicate ValidPolicy(idle: int, absolute: int) {
    MIN_IDLE <= idle <= MAX_IDLE && idle <= absolute <= MAX_ABSOLUTE
  }

  function UpdatePolicyTx(db: Database, revision: nat, idle: int, absolute: int): Option<Database> {
    if !ValidPolicy(idle, absolute) || db.policy.revision != revision then None
    else
      var i, a := MinInt(idle, db.policy.idle), MinInt(absolute, db.policy.absolute);
      Some(db.(sessions := map sid | sid in db.sessions :: Reaped(Tightened(db.sessions[sid], i, a), db.clock),
               policy := Policy(idle, absolute, revision + 1)))
  }

  // ------------------------------------------------------------------- locks

  function SpendProofs(proofs: map<Token, Proof>, sponsor: Sid): map<Token, Proof> {
    map t | t in proofs :: if proofs[t].sponsor == sponsor then proofs[t].(consumed := true) else proofs[t]
  }

  function LockTx(db: Database, sid: Sid, id: Pid): Option<Database> {
    var live := LivePrincipal(db, sid, false);
    if live.None? || live.value.id != id then None
    else Some(db.(sessions := db.sessions[sid := db.sessions[sid].(locked := true)],
                  proofs := SpendProofs(db.proofs, sid)))
  }

  /** The session an unconsumed refresh token still stands for, locked or not. */
  function RefreshIdentity(db: Database, raw: Token): Option<Sid> {
    if raw !in db.refresh || db.refresh[raw].consumed then None
    else if LivePrincipal(db, db.refresh[raw].session, true).None? then None
    else Some(db.refresh[raw].session)
  }

  function SpendRefresh(refresh: map<Token, RefreshToken>, sid: Sid): map<Token, RefreshToken> {
    map t | t in refresh :: if refresh[t].session == sid then RefreshToken(sid, true) else refresh[t]
  }

  /** `id`, `subject` and `adapter` come from a verification that ended before this transaction began. */
  function FinishTx(db: Database, raw: Token, sid: Sid, id: Pid, subject: Subject, adapter: string): Outcome
    requires Usable(db)
  {
    var live := LivePrincipal(db, sid, true);
    if live.None? || live.value.id != id then Outcome(db, None)
    else if raw !in db.refresh || db.refresh[raw] != RefreshToken(sid, false) then Outcome(db, None)
    else if !db.sessions[sid].locked then Outcome(db, None)
    else if subject !in db.dir.identities || db.dir.identities[subject] != id then Outcome(db, None)
    else if adapter in db.dir.disabledMethods then Outcome(db, None)
    else
      var next, s := db.nonce, db.sessions[sid];
      var db1 := db.(nonce := next + 1,
                     refresh := SpendRefresh(db.refresh, sid)[next := RefreshToken(sid, false)],
                     sessions := db.sessions[sid := s.(locked := false, generation := s.generation + 1, lastSeen := db.clock)]);
      Outcome(db1, Some(CredentialsFor(db1, Issue(db1, live.value.id, live.value.version, sid), next, sid)))
  }

  function LiveFlows(db: Database): map<Token, UnlockFlow> {
    map t | t in db.flows && db.clock < db.flows[t].expires :: db.flows[t]
  }

  function BindOidcTx(db: Database, sid: Sid, id: Pid, raw: Token, adapter: string, state: Token): Option<Database> {
    var live := LivePrincipal(db, sid, true);
    if live.None? || !db.sessions[sid].locked || live.value.id != id then None
    else if state in LiveFlows(db) then None
    else Some(db.(flows := LiveFlows(db)[state := UnlockFlow(adapter, sid, raw, live.value.version, db.clock + UNLOCK_TTL)]))
  }

  /** The lookup before the await found the flow of this adapter; rows of flows never change. */
  function FinishOidcTx(db: Database, state: Token, id: Pid, version: nat, subject: Subject, adapter: string): Outcome
    requires Usable(db)
  {
    if state !in db.flows || db.flows[state].adapter != adapter then Outcome(db, None)
    else if db.flows[state].expires <= db.clock || db.flows[state].version != version then Outcome(db, None)
    else
      var flow := db.flows[state];
      var done := FinishTx(db, flow.refresh, flow.session, id, subject, adapter);
      if done.credentials.None? then Outcome(db, None)
      else Outcome(done.db.(flows := done.db.flows - {state}), done.credentials)
  }

  // ----------------------------------------------------------------- pairing

  function PendingProofs(db: Database): map<Token, Proof> {
    map t | t in db.proofs && db.clock < db.proofs[t].expires && !db.proofs[t].consumed :: db.proofs[t]
  }

  function Sponsored(proofs: map<Token, Proof>, sponsor: Sid): set<Token> {
    set t | t in proofs && proofs[t].sponsor == sponsor
  }

  function Ttl(purpose: Purpose): real {
    match purpose
    case Pair => PAIR_TTL
    case Socket => SOCKET_TTL
  }

  /** The new proof is the database's next nonce. */
  function IssueProofTx(db: Database, sid: Sid, id: Pid, version: nat, purpose: Purpose,
                        scopes: set<Scope>, path: string, legacy: bool): Option<Database>
  {
    var live := LivePrincipal(db, sid, false);
    if live.None? || live.value.id != id || live.value.version != version || !(scopes <= live.value.scopes) then None
    else
      var kept := PendingProofs(db);
      if |Sponsored(kept, sid)| >= MAX_PENDING then None
      else
        var proof := Proof(purpose, sid, live.value.id, live.value.version, scopes, db.clock + Ttl(purpose), false, path, legacy);
        Some(db.(nonce := db.nonce + 1, proofs := kept[db.nonce := proof]))
  }

  datatype Consumed = Consumed(db: Database, proof: Proof, live: Live)

  function ConsumeTx(db: Database, ticket: Token, purpose: Purpose, host: nat, path: string): Option<Consumed> {
    if host != db.hostId || ticket !in db.proofs then None
    else
      var proof := db.proofs[ticket];
      if proof.purpose != purpose || proof.consumed || proof.expires <= db.clock || proof.path != path then None
      else
        var live := LivePrincipal(db, proof.sponsor, false);
        if live.None? || live.value.id != proof.principal || live.value.version != proof.version
           || !(proof.scopes <= live.value.scopes) then None
        else Some(Consumed(db.(proofs := db.proofs[ticket := proof.(consumed := true)]), proof, live.value))
  }

  /** `legacyOk` is the answer of the legacy token store; its refusal rolls the consumption back. */
  function ExchangeTx(db: Database, ticket: Token, host: nat, legacyOk: bool): Outcome
    requires Usable(db)
  {
    var c := ConsumeTx(db, ticket, Pair, host, "");
    if c.None? || (c.value.proof.legacy && !legacyOk) then Outcome(db, None)
    else Enrol(c.value.db, c.value.live.id, c.value.live.version, Some(c.value.proof.scopes))
  }

  datatype Admission = Admission(db: Database, access: Option<AccessToken>)

  function AdmitSocketTx(db: Database, ticket: Token, host: nat, path: string): Admission
    requires Usable(db)
  {
    var c := ConsumeTx(db, ticket, Socket, host, path);
    if c.None? then Admission(db, None)
    else Admission(c.value.db, Some(Issue(c.value.db, c.value.live.id, c.value.live.version, c.value.proof.sponsor)))
  }

  function RevokeProofTx(db: Database, sid: Sid, id: Pid, ticket: Token): Option<Database> {
    var live := LivePrincipal(db, sid, false);
    if live.None? || live.value.id != id then None
    else if ticket in db.proofs && db.proofs[ticket].sponsor == sid && db.proofs[ticket].purpose == Pair && !db.proofs[ticket].consumed
    then Some(db.(proofs := db.proofs[ticket := db.proofs[ticket].(consumed := true)]))
    else Some(db)
  }

  // -------------------------------------------------------------------- runs

  datatype Event =
    | Advance(dt: Duration)
    | Login(id: Pid, version: nat)
    | Refresh(raw: Token)
    | Lock(sid: Sid, id: Pid)
    | Unlock(raw: Token, sid: Sid, id: Pid, subject: Subject, adapter: string)
    | BindOidc(sid: Sid, id: Pid, raw: Token, adapter: string, state: Token)
    | FinishOidc(state: Token, id: Pid, version: nat, subject: Subject, adapter: string)
    | IssueProof(sid: Sid, id: Pid, version: nat, purpose: Purpose, scopes: set<Scope>, path: string, legacy: bool)
    | Exchange(ticket: Token, host: nat, legacyOk: bool)
    | AdmitSocket(ticket: Token, host: nat, path: string)
    | RevokeProof(sid: Sid, id: Pid, ticket: Token)
    | Rotate
    | UpdatePolicy(revision: nat, idle: int, absolute: int)
    | Revoke(sid: Sid, id: Pid)
    | RevokeAll(id: Pid)
    | Administer(op: Operation)

  function OrElse(after: Option<Database>, before: Database): Database {
    if after.Some? then after.value else before
  }

  /** One committed transaction, whatever it answered. */
  function Step(db: Database, e: Event): (db': Database)
    requires Usable(db)
    ensures Usable(db')
  {
    match e
    case Advance(dt) => db.(clock := db.clock + dt)
    case Login(id, version) => LoginTx(db, id, version).db
    case Refresh(raw) => RefreshTx(db, raw).0
    case Lock(sid, id) => OrElse(LockTx(db, sid, id), db)
    case Unlock(raw, sid, id, subject, adapter) => FinishTx(db, raw, sid, id, subject, adapter).db
    case BindOidc(sid, id, raw, adapter, state) => OrElse(BindOidcTx(db, sid, id, raw, adapter, state), db)
    case FinishOidc(state, id, version, subject, adapter) => FinishOidcTx(db, state, id, version, subject, adapter).db
    case IssueProof(sid, id, version, purpose, scopes, path, legacy) =>
      OrElse(IssueProofTx(db, sid, id, version, purpose, scopes, path, legacy), db)
    case Exchange(ticket, host, legacyOk) => ExchangeTx(db, ticket, host, legacyOk).db
    case AdmitSocket(ticket, host, path) => AdmitSocketTx(db, ticket, host, path).db
    case RevokeProof(sid, id, ticket) => OrElse(RevokeProofTx(db, sid, id, ticket), db)
    case Rotate => RotateTx(db)
    case UpdatePolicy(revision, idle, absolute) => OrElse(UpdatePolicyTx(db, revision, idle, absolute), db)
    case Revoke(sid, id) => RevokeTx(db, sid, id)
    case RevokeAll(id) => RevokeAllTx(db, id)
    case Administer(op) => AdministerTx(db, op)
  }

  function Run(db: Database, events: seq<Event>): (db': Database)
    requires Usable(db)
    ensures Usable(db')
    decreases |events|
  {
    if events == [] then db else Run(Step(db, events[0]), events[1..])
  }

  /** The access token a step signs, if it signs one. */
  function Signs(db: Database, e: Event): Option<AccessToken>
    requires Usable(db)
  {
    match e
    case Login(id, version) => Accessed(LoginTx(db, id, version).credentials)
    case Refresh(raw) => if RefreshTx(db, raw).1.Granted? then Some(RefreshTx(db, raw).1.credentials.access) else None
    case Unlock(raw, sid, id, subject, adapter) => Accessed(FinishTx(db, raw, sid, id, subject, adapter).credentials)
    case FinishOidc(state, id, version, subject, adapter) => Accessed(FinishOidcTx(db, state, id, version, subject, adapter).credentials)
    case Exchange(ticket, host, legacyOk) => Accessed(ExchangeTx(db, ticket, host, legacyOk).credentials)
    case AdmitSocket(ticket, host, path) => AdmitSocketTx(db, ticket, host, path).access
    case _ => None
  }

  function Accessed(c: Option<Credentials>): Option<AccessToken> {
    if c.Some? then Some(c.value.access) else None
  }
}
