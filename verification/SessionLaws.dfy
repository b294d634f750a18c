/**
 What each transaction of the session authority does, said of rows and columns
 alone: when it answers which way, what it writes, and that it writes nothing else.
 */
module SessionLaws {
  import opened Options
  import opened Directories
  import opened Administration
  import opened AdministrationLaws
  import opened Sessions

  // ------------------------------------------------------------ who may act

  /** The moment is at or before every end of the session. */
  predicate Within(policy: Policy, s: Session, at: real) {
    && at <= s.expires && at <= s.created + policy.absolute as real
    && at <= s.lastSeen + s.idle as real && at <= s.lastSeen + policy.idle as real
  }

  predicate Over(db: Database, s: Session) {
    || s.expires <= db.clock || s.created + db.policy.absolute as real <= db.clock
    || s.lastSeen + s.idle as real <= db.clock || s.lastSeen + db.policy.idle as real <= db.clock
  }

  /** Unrevoked, before its ends, and of an enabled principal; it may be locked. */
  predicate Standing(db: Database, sid: Sid) {
    && sid in db.sessions && !db.sessions[sid].revoked && !Over(db, db.sessions[sid])
    && db.sessions[sid].principal in db.dir.principals && db.dir.principals[db.sessions[sid].principal].enabled
  }

  predicate Acts(db: Database, sid: Sid) { Standing(db, sid) && !db.sessions[sid].locked }

  predicate Held(db: Database, sid: Sid) { Standing(db, sid) && db.sessions[sid].locked }

  predicate ActsFor(db: Database, sid: Sid, id: Pid) { Acts(db, sid) && db.sessions[sid].principal == id }

  predicate HeldFor(db: Database, sid: Sid, id: Pid) { Held(db, sid) && db.sessions[sid].principal == id }

  function VersionOf(db: Database, p: Pid): nat {
    if p in db.dir.principals then db.dir.principals[p].version else 0
  }

  ghost predicate Wields(db: Database, sid: Sid, s: Scope)
    requires sid in db.sessions
  {
    Holds(db.dir, db.sessions[sid].principal, s, db.clock) && (db.sessions[sid].grant.Some? ==> s in db.sessions[sid].grant.value)
  }

  /** A session lives exactly while it stands, and acts within its grant and its principal's scopes of the moment. */
  lemma LiveExactly(db: Database, sid: Sid, allowLocked: bool)
    ensures var live := LivePrincipal(db, sid, allowLocked);
      && (live.Some? <==> if allowLocked then Standing(db, sid) else Acts(db, sid))
      && (live.Some? ==>
            && live.value.id == db.sessions[sid].principal && live.value.version == VersionOf(db, live.value.id)
            && forall s :: s in live.value.scopes <==> Wields(db, sid, s))
  {
    if Standing(db, sid) { ScopesExactly(db.dir, db.sessions[sid].principal, db.clock); }
  }

  // ------------------------------------------------------------ credentials

  /** The token is signed with the active key for the session as it is, for at most five minutes and no longer than it may last. */
  predicate Vouches(db: Database, t: AccessToken, sid: Sid, version: nat)
    requires Usable(db) && sid in db.sessions
  {
    var s := db.sessions[sid];
    && t.kid == db.activeKey && t.signature == db.keys[t.kid].secret
    && t.sid == sid && t.sub == s.principal && t.version == version && t.generation == s.generation
    && t.issuedAt as real <= db.clock < t.issuedAt as real + 1.0
    && t.exp <= t.issuedAt + 300 && Within(db.policy, s, t.exp as real)
    && (t.exp == t.issuedAt + 300 || !Within(db.policy, s, t.exp as real + 1.0))
  }

  /** The whole seconds left of the session's lifetime, rounded up. */
  predicate Remains(db: Database, s: Session, left: int) {
    var end := if s.expires <= s.created + db.policy.absolute as real then s.expires else s.created + db.policy.absolute as real;
    if end <= db.clock then left == 0 else end - db.clock <= left as real < end - db.clock + 1.0
  }

  predicate Equips(db: Database, c: Credentials, sid: Sid, version: nat)
    requires Usable(db)
  {
    && c.sid == sid && sid in db.sessions
    && c.refresh in db.refresh && db.refresh[c.refresh] == RefreshToken(sid, false)
    && Vouches(db, c.access, sid, version)
    && c.expiresIn == (if c.access.exp > c.access.issuedAt then c.access.exp - c.access.issuedAt else 0)
    && Remains(db, db.sessions[sid], c.refreshExpiresIn)
  }

  lemma IssueVouches(db: Database, version: nat, sid: Sid)
    requires Usable(db) && sid in db.sessions
    ensures Vouches(db, Issue(db, db.sessions[sid].principal, version, sid), sid, version)
  {
  }

  lemma CredentialsEquip(db: Database, version: nat, sid: Sid, raw: Token)
    requires Usable(db) && sid in db.sessions && raw in db.refresh && db.refresh[raw] == RefreshToken(sid, false)
    ensures Equips(db, CredentialsFor(db, Issue(db, db.sessions[sid].principal, version, sid), raw, sid), sid, version)
  {
    IssueVouches(db, version, sid);
  }

  /** Only these sessions are touched, and only revoked. */
  ghost predicate Revokes(db: Database, db': Database, ended: set<Sid>) {
    && db' == db.(sessions := db'.sessions) && db'.sessions.Keys == db.sessions.Keys
    && forall sid :: sid in db.sessions ==>
         db'.sessions[sid] == db.sessions[sid].(revoked := db.sessions[sid].revoked || sid in ended)
  }

  // -------------------------------------------------------- sign-in, refresh

  /** A new session with its first credentials, and nothing else. */
  ghost predicate Admits(db: Database, id: Pid, version: nat, grant: Option<set<Scope>>, db': Database, c: Credentials) {
    && Usable(db') && db' == db.(nonce := db'.nonce, sessions := db'.sessions, refresh := db'.refresh)
    && db.nonce <= c.sid < db'.nonce && db.nonce <= c.refresh < db'.nonce && c.sid != c.refresh
    && c.sid in db'.sessions && db'.sessions == db.sessions[c.sid := db'.sessions[c.sid]]
    && db'.refresh == db.refresh[c.refresh := RefreshToken(c.sid, false)]
    && Equips(db', c, c.sid, version)
    && var s := db'.sessions[c.sid];
       && s.principal == id && s.grant == grant && s.generation == 0 && !s.revoked && !s.locked
       && s.created == db.clock && s.lastSeen == db.clock
       && s.expires == db.clock + db.policy.absolute as real && s.idle == db.policy.idle
  }

  lemma EnrolAdmits(db: Database, id: Pid, version: nat, grant: Option<set<Scope>>)
    requires Usable(db)
    ensures var o := Enrol(db, id, version, grant);
      o.credentials.Some? && Admits(db, id, version, grant, o.db, o.credentials.value)
  {
    var o := Enrol(db, id, version, grant);
    CredentialsEquip(o.db, version, db.nonce, db.nonce + 1);
  }

  predicate Unspent(db: Database, raw: Token, sid: Sid) {
    raw in db.refresh && !db.refresh[raw].consumed && db.refresh[raw].session == sid
  }

  /** The presented token is spent for a new one of the same session, which is seen now. */
  ghost predicate Rotates(db: Database, raw: Token, sid: Sid, db': Database, c: Credentials) {
    && Usable(db') && db' == db.(nonce := db'.nonce, sessions := db'.sessions, refresh := db'.refresh)
    && sid in db.sessions && db'.sessions == db.sessions[sid := db.sessions[sid].(lastSeen := db.clock)]
    && db.nonce <= c.refresh < db'.nonce && db'.refresh.Keys == db.refresh.Keys + {c.refresh}
    && (forall t :: t in db.refresh && t != c.refresh ==>
          db'.refresh[t] == db.refresh[t].(consumed := db.refresh[t].consumed || t == raw))
    && Equips(db', c, sid, VersionOf(db, db.sessions[sid].principal))
  }

  /** Who may refresh, who is told to unlock, and what a replay does. */
  ghost predicate RefreshLaw(db: Database, raw: Token, db': Database, answer: Answer) {
    var known := raw in db.refresh;
    var sid := if known then db.refresh[raw].session else 0;
    && (answer.Granted? <==> known && !db.refresh[raw].consumed && Acts(db, sid))
    && (answer.SessionLocked? <==> known && !db.refresh[raw].consumed && Held(db, sid))
    && (answer.Reused? <==> known && db.refresh[raw].consumed)
    && (answer.Denied? || answer.SessionLocked? ==> db' == db)
    && (answer.Reused? ==> Revokes(db, db', {sid}))
    && (answer.Granted? ==> Rotates(db, raw, sid, db', answer.credentials))
  }

  lemma RefreshLawful(db: Database, raw: Token)
    requires Usable(db)
    ensures RefreshLaw(db, raw, RefreshTx(db, raw).0, RefreshTx(db, raw).1)
  {
    if raw in db.refresh {
      var sid := db.refresh[raw].session;
      LiveExactly(db, sid, false);
      LiveExactly(db, sid, true);
      if !db.refresh[raw].consumed && Acts(db, sid) {
        CredentialsEquip(RefreshTx(db, raw).0, VersionOf(db, db.sessions[sid].principal), sid, db.nonce);
      }
    }
  }

  // ------------------------------------------------------ presenting a token

  /** What a token must be to stand for its session now. */
  predicate Presentable(db: Database, t: AccessToken, allowLocked: bool) {
    && t.kid in db.keys && db.keys[t.kid].secret == t.signature
    && t.issuedAt as real <= db.clock < t.exp as real
    && (if allowLocked then Standing(db, t.sid) else Acts(db, t.sid))
    && db.sessions[t.sid].principal == t.sub && db.sessions[t.sid].generation == t.generation
  }

  ghost predicate ResolveLaw(db: Database, t: AccessToken, allowLocked: bool, identity: Option<Resolved>) {
    && (identity.Some? <==> Presentable(db, t, allowLocked))
    && (identity.Some? ==>
          var r, s := identity.value, db.sessions[t.sid];
          && r.sid == t.sid && r.locked == s.locked && r.live.id == s.principal && r.live.version == VersionOf(db, s.principal)
          && (forall scope :: scope in r.live.scopes <==> Wields(db, t.sid, scope))
          && r.expiresAt <= t.exp as real && Within(db.policy, s, r.expiresAt)
          && forall later :: later <= t.exp as real && Within(db.policy, s, later) ==> later <= r.expiresAt)
  }

  lemma ResolveLawful(db: Database, t: AccessToken, allowLocked: bool)
    ensures ResolveLaw(db, t, allowLocked, Resolve(db, t, allowLocked))
  {
    LiveExactly(db, t.sid, allowLocked);
  }

  /** A token just issued with a second of life in it resolves at once, to the session it was issued for. */
  lemma IssuedResolves(db: Database, sid: Sid, version: nat, t: AccessToken)
    requires Usable(db) && Acts(db, sid) && Vouches(db, t, sid, version) && t.exp > t.issuedAt
    ensures Resolve(db, t, false).Some? && Resolve(db, t, false).value.sid == sid
  {
    LiveExactly(db, sid, false);
  }

  // ------------------------------------------------------- keys and policies

  /** The old key stays for the tokens it signed, keys past their time go, a new one signs. */
  ghost predicate RotateLaw(db: Database, db': Database) {
    && db' == db.(nonce := db'.nonce, keys := db'.keys, activeKey := db'.activeKey)
    && db.nonce <= db'.activeKey < db'.nonce && db'.activeKey in db'.keys
    && db'.keys[db'.activeKey].retiredAfter.None? && db.nonce <= db'.keys[db'.activeKey].secret < db'.nonce
    && forall k :: k != db'.activeKey ==>
         && (k in db'.keys <==> k in db.keys && (k == db.activeKey || db.keys[k].retiredAfter.None? || db.clock < db.keys[k].retiredAfter.value))
         && (k in db'.keys ==>
               && db'.keys[k].secret == db.keys[k].secret
               && db'.keys[k].retiredAfter == if k == db.activeKey then Some(db.clock + 300.0) else db.keys[k].retiredAfter)
  }

  lemma RotateLawful(db: Database)
    requires Usable(db)
    ensures RotateLaw(db, RotateTx(db))
  {
  }

  /** The session under a saved policy: its limits cut, and revoked when that has ended it. */
  predicate CutTo(s: Session, s': Session, idle: int, absolute: int, now: real) {
    && s' == s.(idle := s'.idle, expires := s'.expires, revoked := s'.revoked)
    && s'.idle <= s.idle && s'.idle <= idle && (s'.idle == s.idle || s'.idle == idle)
    && s'.expires <= s.expires && s'.expires <= s.created + absolute as real
    && (s'.expires == s.expires || s'.expires == s.created + absolute as real)
    && (s'.revoked <==> s.revoked || s'.expires <= now || s'.lastSeen + s'.idle as real <= now)
  }

  ghost predicate UpdatePolicyLaw(db: Database, revision: nat, idle: int, absolute: int, db': Database, saved: bool) {
    && (saved <==> 600 <= idle <= 2592000 && idle <= absolute <= 31536000 && revision == db.policy.revision)
    && (!saved ==> db' == db)
    && (saved ==>
          && db' == db.(sessions := db'.sessions, policy := Policy(idle, absolute, revision + 1))
          && db'.sessions.Keys == db.sessions.Keys
          && forall sid :: sid in db.sessions ==>
               CutTo(db.sessions[sid], db'.sessions[sid], MinInt(idle, db.policy.idle), MinInt(absolute, db.policy.absolute), db.clock))
  }

  lemma UpdatePolicyLawful(db: Database, revision: nat, idle: int, absolute: int)
    ensures var o := UpdatePolicyTx(db, revision, idle, absolute);
      UpdatePolicyLaw(db, revision, idle, absolute, OrElse(o, db), o.Some?)
  {
  }

  // -------------------------------------------------------------- revocation

  lemma RevokeLawful(db: Database, sid: Sid, id: Pid)
    ensures Revokes(db, RevokeTx(db, sid, id), set s | s in db.sessions && s == sid && db.sessions[s].principal == id)
  {
  }

  ghost function SessionsOf(db: Database, ps: set<Pid>): set<Sid> {
    set sid | sid in db.sessions && db.sessions[sid].principal in ps
  }

  lemma RevokeAllLawful(db: Database, id: Pid)
    ensures Revokes(db, RevokeAllTx(db, id), SessionsOf(db, {id}))
  {
  }

  // ------------------------------------------------------------------- locks

  ghost predicate LockLaw(db: Database, sid: Sid, id: Pid, db': Database, locked: bool) {
    && (locked <==> ActsFor(db, sid, id))
    && (!locked ==> db' == db)
    && (locked ==>
          && db' == db.(sessions := db'.sessions, proofs := db'.proofs)
          && db'.sessions == db.sessions[sid := db.sessions[sid].(locked := true)]
          && db'.proofs.Keys == db.proofs.Keys
          && forall t :: t in db.proofs ==>
               db'.proofs[t] == db.proofs[t].(consumed := db.proofs[t].consumed || db.proofs[t].sponsor == sid))
  }

  lemma LockLawful(db: Database, sid: Sid, id: Pid)
    ensures LockLaw(db, sid, id, OrElse(LockTx(db, sid, id), db), LockTx(db, sid, id).Some?)
  {
    LiveExactly(db, sid, false);
  }

  ghost predicate BeginUnlockLaw(db: Database, raw: Token, sid: Option<Sid>) {
    forall s: Sid :: sid == Some(s) <==> Unspent(db, raw, s) && Held(db, s)
  }

  lemma BeginUnlockLawful(db: Database, raw: Token)
    ensures var s := RefreshIdentity(db, raw);
      BeginUnlockLaw(db, raw, if s.Some? && db.sessions[s.value].locked then s else None)
  {
    if raw in db.refresh { LiveExactly(db, db.refresh[raw].session, true); }
  }

  /** The device's token and the person's identity both still stand for the locked session. */
  predicate MayUnlock(db: Database, raw: Token, sid: Sid, id: Pid, subject: Subject, adapter: string) {
    && HeldFor(db, sid, id) && Unspent(db, raw, sid)
    && subject in db.dir.identities && db.dir.identities[subject] == id && adapter !in db.dir.disabledMethods
  }

  /** Unlocked in its next generation, with every refresh token spent but a new one. */
  ghost predicate Unlocked(db: Database, sid: Sid, db': Database, c: Credentials) {
    && Usable(db') && db' == db.(nonce := db'.nonce, sessions := db'.sessions, refresh := db'.refresh)
    && sid in db.sessions
    && db'.sessions == db.sessions[sid := db.sessions[sid].(locked := false, generation := db.sessions[sid].generation + 1, lastSeen := db.clock)]
    && db.nonce <= c.refresh < db'.nonce && db'.refresh.Keys == db.refresh.Keys + {c.refresh}
    && (forall t :: t in db.refresh && t != c.refresh ==>
          db'.refresh[t] == db.refresh[t].(consumed := db.refresh[t].consumed || db.refresh[t].session == sid))
    && Equips(db', c, sid, VersionOf(db, db.sessions[sid].principal))
  }

  ghost predicate FinishUnlockLaw(db: Database, raw: Token, sid: Sid, id: Pid, subject: Subject, adapter: string,
                                  db': Database, credentials: Option<Credentials>) {
    && (credentials.Some? <==> MayUnlock(db, raw, sid, id, subject, adapter))
    && (credentials.None? ==> db' == db)
    && (credentials.Some? ==> Unlocked(db, sid, db', credentials.value))
  }

  lemma FinishUnlockLawful(db: Database, raw: Token, sid: Sid, id: Pid, subject: Subject, adapter: string)
    requires Usable(db)
    ensures var o := FinishTx(db, raw, sid, id, subject, adapter);
      FinishUnlockLaw(db, raw, sid, id, subject, adapter, o.db, o.credentials)
  {
    LiveExactly(db, sid, true);
    var o := FinishTx(db, raw, sid, id, subject, adapter);
    if o.credentials.Some? { CredentialsEquip(o.db, VersionOf(db, id), sid, db.nonce); }
  }

  predicate Underway(db: Database, state: Token) {
    state in db.flows && db.clock < db.flows[state].expires
  }

  ghost predicate BindOidcLaw(db: Database, sid: Sid, id: Pid, raw: Token, adapter: string, state: Token, db': Database, bound: bool) {
    && (bound <==> HeldFor(db, sid, id) && !Underway(db, state))
    && (!bound ==> db' == db)
    && (bound ==>
          && db' == db.(flows := db'.flows)
          && state in db'.flows && db'.flows[state] == UnlockFlow(adapter, sid, raw, VersionOf(db, id), db.clock + 300.0)
          && forall t :: t != state ==> (t in db'.flows <==> Underway(db, t)) && (t in db'.flows ==> db'.flows[t] == db.flows[t]))
  }

  lemma BindOidcLawful(db: Database, sid: Sid, id: Pid, raw: Token, adapter: string, state: Token)
    ensures var o := BindOidcTx(db, sid, id, raw, adapter, state);
      BindOidcLaw(db, sid, id, raw, adapter, state, OrElse(o, db), o.Some?)
  {
    LiveExactly(db, sid, true);
  }

  ghost predicate FinishOidcLaw(db: Database, state: Token, id: Pid, version: nat, subject: Subject, adapter: string,
                                db': Database, credentials: Option<Credentials>) {
    && (credentials.Some? <==>
          && Underway(db, state) && db.flows[state].adapter == adapter && db.flows[state].version == version
          && MayUnlock(db, db.flows[state].refresh, db.flows[state].session, id, subject, adapter))
    && (credentials.None? ==> db' == db)
    && (credentials.Some? ==>
          && db'.flows == db.flows - {state}
          && Unlocked(db, db.flows[state].session, db'.(flows := db.flows), credentials.value))
  }

  lemma FinishOidcLawful(db: Database, state: Token, id: Pid, version: nat, subject: Subject, adapter: string)
    requires Usable(db)
    ensures var o := FinishOidcTx(db, state, id, version, subject, adapter);
      FinishOidcLaw(db, state, id, version, subject, adapter, o.db, o.credentials)
  {
    if state in db.flows {
      var flow := db.flows[state];
      FinishUnlockLawful(db, flow.refresh, flow.session, id, subject, adapter);
      var o := FinishOidcTx(db, state, id, version, subject, adapter);
      if o.credentials.Some? {
        assert o.db.(flows := db.flows) == FinishTx(db, flow.refresh, flow.session, id, subject, adapter).db;
      }
    }
  }

  // ----------------------------------------------------------------- pairing

  predicate PendingProof(db: Database, t: Token) {
    t in db.proofs && !db.proofs[t].consumed && db.clock < db.proofs[t].expires
  }

  ghost function PendingOf(db: Database, sid: Sid): set<Token> {
    set t | t in db.proofs && PendingProof(db, t) && db.proofs[t].sponsor == sid
  }

  ghost predicate IssueProofLaw(db: Database, sid: Sid, id: Pid, version: nat, purpose: Purpose, scopes: set<Scope>,
                                path: string, legacy: bool, db': Database, ticket: Option<Token>) {
    && (ticket.Some? <==>
          && ActsFor(db, sid, id) && version == VersionOf(db, id)
          && (forall s :: s in scopes ==> Wields(db, sid, s)) && |PendingOf(db, sid)| < 20)
    && (ticket.None? ==> db' == db)
    && (ticket.Some? ==>
          && db' == db.(nonce := db'.nonce, proofs := db'.proofs)
          && db.nonce <= ticket.value < db'.nonce && ticket.value in db'.proofs
          && db'.proofs[ticket.value] == Proof(purpose, sid, id, version, scopes,
               db.clock + (if purpose == Pair then 300.0 else 30.0), false, path, legacy)
          && forall t :: t != ticket.value ==> (t in db'.proofs <==> PendingProof(db, t)) && (t in db'.proofs ==> db'.proofs[t] == db.proofs[t]))
  }

  lemma IssueProofLawful(db: Database, sid: Sid, id: Pid, version: nat, purpose: Purpose, scopes: set<Scope>, path: string, legacy: bool)
    ensures var o := IssueProofTx(db, sid, id, version, purpose, scopes, path, legacy);
      IssueProofLaw(db, sid, id, version, purpose, scopes, path, legacy, OrElse(o, db), if o.Some? then Some(db.nonce) else None)
  {
    LiveExactly(db, sid, false);
    assert PendingOf(db, sid) == Sponsored(PendingProofs(db), sid);
  }

  /** The proof is pending, for this use, and its sponsor could still issue it. */
  ghost predicate Redeemable(db: Database, ticket: Token, purpose: Purpose, host: nat, path: string) {
    && host == db.hostId && PendingProof(db, ticket)
    && var proof := db.proofs[ticket];
    && proof.purpose == purpose && proof.path == path
    && ActsFor(db, proof.sponsor, proof.principal) && proof.version == VersionOf(db, proof.principal)
    && forall s :: s in proof.scopes ==> Wields(db, proof.sponsor, s)
  }

  /** The one proof is spent. */
  ghost predicate SpendsProof(db: Database, ticket: Token, db': Database) {
    && ticket in db.proofs && db' == db.(proofs := db.proofs[ticket := db.proofs[ticket].(consumed := true)])
  }

  ghost predicate ConsumeLaw(db: Database, ticket: Token, purpose: Purpose, host: nat, path: string, c: Option<Consumed>) {
    && (c.Some? <==> Redeemable(db, ticket, purpose, host, path))
    && (c.Some? ==>
          && SpendsProof(db, ticket, c.value.db) && c.value.proof == db.proofs[ticket]
          && c.value.live.id == db.proofs[ticket].principal && c.value.live.version == db.proofs[ticket].version)
  }

  lemma ConsumeLawful(db: Database, ticket: Token, purpose: Purpose, host: nat, path: string)
    ensures ConsumeLaw(db, ticket, purpose, host, path, ConsumeTx(db, ticket, purpose, host, path))
  {
    if ticket in db.proofs { LiveExactly(db, db.proofs[ticket].sponsor, false); }
  }

  /** The paired session has its sponsor's principal and the scopes of the proof. */
  ghost predicate ExchangeLaw(db: Database, ticket: Token, host: nat, legacyOk: bool, db': Database, credentials: Option<Credentials>) {
    && (credentials.Some? <==> Redeemable(db, ticket, Pair, host, "") && (db.proofs[ticket].legacy ==> legacyOk))
    && (credentials.None? ==> db' == db)
    && (credentials.Some? ==>
          exists spent :: SpendsProof(db, ticket, spent)
            && Admits(spent, db.proofs[ticket].principal, db.proofs[ticket].version, Some(db.proofs[ticket].scopes), db', credentials.value))
  }

  lemma ExchangeLawful(db: Database, ticket: Token, host: nat, legacyOk: bool)
    requires Usable(db)
    ensures var o := ExchangeTx(db, ticket, host, legacyOk); ExchangeLaw(db, ticket, host, legacyOk, o.db, o.credentials)
  {
    ConsumeLawful(db, ticket, Pair, host, "");
    var c := ConsumeTx(db, ticket, Pair, host, "");
    if c.Some? {
      EnrolAdmits(c.value.db, c.value.live.id, c.value.live.version, Some(c.value.proof.scopes));
      assert SpendsProof(db, ticket, c.value.db);
    }
  }

  ghost predicate AdmitSocketLaw(db: Database, ticket: Token, host: nat, path: string, db': Database, access: Option<AccessToken>) {
    && (access.Some? <==> Redeemable(db, ticket, Socket, host, path))
    && (access.None? ==> db' == db)
    && (access.Some? ==>
          && SpendsProof(db, ticket, db') && Usable(db') && db.proofs[ticket].sponsor in db'.sessions
          && Vouches(db', access.value, db.proofs[ticket].sponsor, db.proofs[ticket].version))
  }

  lemma AdmitSocketLawful(db: Database, ticket: Token, host: nat, path: string)
    requires Usable(db)
    ensures var o := AdmitSocketTx(db, ticket, host, path); AdmitSocketLaw(db, ticket, host, path, o.db, o.access)
  {
    ConsumeLawful(db, ticket, Socket, host, path);
    var c := ConsumeTx(db, ticket, Socket, host, path);
    if c.Some? { IssueVouches(c.value.db, c.value.live.version, c.value.proof.sponsor); }
  }

  ghost predicate RevokeProofLaw(db: Database, sid: Sid, id: Pid, ticket: Token, db': Database, accepted: bool) {
    && (accepted <==> ActsFor(db, sid, id))
    && (if accepted && ticket in db.proofs && db.proofs[ticket].sponsor == sid && db.proofs[ticket].purpose == Pair
        then SpendsProof(db, ticket, db') else db' == db)
  }

  lemma RevokeProofLawful(db: Database, sid: Sid, id: Pid, ticket: Token)
    ensures var o := RevokeProofTx(db, sid, id, ticket); RevokeProofLaw(db, sid, id, ticket, OrElse(o, db), o.Some?)
  {
    LiveExactly(db, sid, false);
    if ticket in db.proofs && db.proofs[ticket].consumed {
      assert db.proofs == db.proofs[ticket := db.proofs[ticket].(consumed := true)];
    }
  }

  // ---------------------------------------------------------- administration

  /** The tables of authority are rewritten as the operation says, and the sessions of those it names are revoked. */
  ghost predicate AdministerLaw(db: Database, op: Operation, db': Database, committed: bool) {
    && (committed <==> Admissible(db.dir, db.clock, op))
    && (!committed ==> db' == db)
    && (committed ==>
          exists revoked: set<Pid> ::
            OperationLaw(db.dir, db.clock, op, Some(Change(db'.dir, revoked)))
            && Revokes(db.(dir := db'.dir), db', SessionsOf(db, revoked)))
  }

  lemma AdministerLawful(db: Database, op: Operation)
    ensures AdministerLaw(db, op, AdministerTx(db, op), Apply(db.dir, db.clock, op).Some?)
  {
    OperationLawful(db.dir, db.clock, op);
    var c := Apply(db.dir, db.clock, op);
    if c.Some? {
      assert c == Some(Change(AdministerTx(db, op).dir, c.value.revoked));
      assert Revokes(db.(dir := c.value.dir), AdministerTx(db, op), SessionsOf(db, c.value.revoked));
    }
  }

  // ------------------------------------------------------------ every transaction

  function AccessOf(c: Option<Credentials>): Option<AccessToken> { if c.None? then None else Some(c.value.access) }

  /** The laws of the transactions that sign, with the token they sign. */
  ghost predicate SigningLaw(db: Database, e: Event, db': Database, signed: Option<AccessToken>) {
    match e
    case Login(id, version) => exists c :: Admits(db, id, version, None, db', c) && signed == Some(c.access)
    case Refresh(raw) =>
      exists a: Answer :: RefreshLaw(db, raw, db', a) && signed == if a.Granted? then Some(a.credentials.access) else None
    case Unlock(raw, sid, id, subject, adapter) =>
      exists c: Option<Credentials> :: FinishUnlockLaw(db, raw, sid, id, subject, adapter, db', c) && signed == AccessOf(c)
    case FinishOidc(state, id, version, subject, adapter) =>
      exists c: Option<Credentials> :: FinishOidcLaw(db, state, id, version, subject, adapter, db', c) && signed == AccessOf(c)
    case Exchange(ticket, host, legacyOk) =>
      exists c: Option<Credentials> :: ExchangeLaw(db, ticket, host, legacyOk, db', c) && signed == AccessOf(c)
    case AdmitSocket(ticket, host, path) => AdmitSocketLaw(db, ticket, host, path, db', signed)
    case _ => true
  }

  /** The laws of the others. */
  ghost predicate RecordingLaw(db: Database, e: Event, db': Database) {
    match e
    case Advance(dt) => db' == db.(clock := db.clock + dt)
    case Lock(sid, id) => exists locked: bool :: LockLaw(db, sid, id, db', locked)
    case BindOidc(sid, id, raw, adapter, state) => exists bound: bool :: BindOidcLaw(db, sid, id, raw, adapter, state, db', bound)
    case IssueProof(sid, id, version, purpose, scopes, path, legacy) =>
      exists ticket: Option<Token> :: IssueProofLaw(db, sid, id, version, purpose, scopes, path, legacy, db', ticket)
    case RevokeProof(sid, id, ticket) => exists accepted: bool :: RevokeProofLaw(db, sid, id, ticket, db', accepted)
    case Rotate => RotateLaw(db, db')
    case UpdatePolicy(revision, idle, absolute) => exists saved: bool :: UpdatePolicyLaw(db, revision, idle, absolute, db', saved)
    case Revoke(sid, id) => Revokes(db, db', set s | s in db.sessions && s == sid && db.sessions[s].principal == id)
    case RevokeAll(id) => Revokes(db, db', SessionsOf(db, {id}))
    case Administer(op) => exists committed: bool :: AdministerLaw(db, op, db', committed)
    case _ => true
  }

  lemma SigningLawful(db: Database, e: Event)
    requires Usable(db)
    ensures SigningLaw(db, e, Step(db, e), Signs(db, e))
  {
    match e
    case Login(id, version) => EnrolAdmits(db, id, version, None);
    case Refresh(raw) => RefreshLawful(db, raw);
    case Unlock(raw, sid, id, subject, adapter) => FinishUnlockLawful(db, raw, sid, id, subject, adapter);
    case FinishOidc(state, id, version, subject, adapter) => FinishOidcLawful(db, state, id, version, subject, adapter);
    case Exchange(ticket, host, legacyOk) => ExchangeLawful(db, ticket, host, legacyOk);
    case AdmitSocket(ticket, host, path) => AdmitSocketLawful(db, ticket, host, path);
    case _ =>
  }

  lemma RecordingLawful(db: Database, e: Event)
    requires Usable(db)
    ensures RecordingLaw(db, e, Step(db, e))
  {
    match e
    case Lock(sid, id) => LockLawful(db, sid, id);
    case BindOidc(sid, id, raw, adapter, state) => BindOidcLawful(db, sid, id, raw, adapter, state);
    case IssueProof(sid, id, version, purpose, scopes, path, legacy) => IssueProofLawful(db, sid, id, version, purpose, scopes, path, legacy);
    case RevokeProof(sid, id, ticket) => RevokeProofLawful(db, sid, id, ticket);
    case Rotate => RotateLawful(db);
    case UpdatePolicy(revision, idle, absolute) => UpdatePolicyLawful(db, revision, idle, absolute);
    case Revoke(sid, id) => RevokeLawful(db, sid, id);
    case RevokeAll(id) => RevokeAllLawful(db, id);
    case Administer(op) => AdministerLawful(db, op);
    case _ =>
  }

  /** Every committed transaction, on any tables, does what its rows say, and signs the token they say. */
  lemma StepLawful(db: Database, e: Event)
    requires Usable(db)
    ensures SigningLaw(db, e, Step(db, e), Signs(db, e)) && RecordingLaw(db, e, Step(db, e))
    ensures !(e.Login? || e.Refresh? || e.Unlock? || e.FinishOidc? || e.Exchange? || e.AdmitSocket?) ==> Signs(db, e).None?
  {
    SigningLawful(db, e);
    RecordingLawful(db, e);
  }

  /** A new host has one key, its first policy, and nobody signed in. */
  lemma InitialLawful(clock: real, hostId: nat, dir: Directory)
    ensures var db := Initial(clock, hostId, dir);
      && db.clock == clock && db.hostId == hostId && db.dir == dir
      && db.policy.idle == 86400 && db.policy.absolute == 2592000 && db.policy.revision == 1
      && db.sessions == map[] && db.refresh == map[] && db.proofs == map[] && db.flows == map[]
      && db.keys.Keys == {db.activeKey} && db.keys[db.activeKey].retiredAfter.None?
      && db.activeKey < db.nonce && db.keys[db.activeKey].secret < db.nonce
  {
  }
}
