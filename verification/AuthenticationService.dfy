/**
 The authentication service: one object over the database, each method one
 transaction. A method works on `tx`, the open transaction; assigning it back
 to `db` commits, returning without that rolls back. Each is proved against the
 transaction function of the same name.
 */
module Authentication {
  import opened Options
  import opened Directories
  import opened Administration
  import opened Sessions
  import opened SessionLaws
  import opened AdministrationLaws

  class AuthenticationService {
    var db: Database

    predicate Valid()
      reads this
    {
      Usable(db)
    }

    constructor (clock: real, hostId: nat, dir: Directory)
      ensures Valid() && db == Initial(clock, hostId, dir)
    {
      db := Database(clock, 2, hostId, dir, Policy(IDLE_TTL, ABSOLUTE_TTL, 1), map[], map[],
                     map[0 := SigningKey(1, None)], 0, map[], map[]);
    }

    method Login(id: Pid, version: nat) returns (credentials: Credentials)
      requires Valid()
      modifies this
      ensures Valid() && Outcome(db, Some(credentials)) == LoginTx(old(db), id, version)
      ensures credentials.sid in db.sessions && db.sessions[credentials.sid].principal == id && !db.sessions[credentials.sid].locked
      ensures credentials.refresh in db.refresh && db.refresh[credentials.refresh] == RefreshToken(credentials.sid, false)
      ensures Admits(old(db), id, version, None, db, credentials)
    {
      EnrolAdmits(db, id, version, None);
      var tx := db;
      var sid, raw := tx.nonce, tx.nonce + 1;
      tx := tx.(nonce := tx.nonce + 2);
      var now := tx.clock;
      tx := tx.(sessions := tx.sessions[sid := Session(id, now, now, now + tx.policy.absolute as real, tx.policy.idle, false, false, 0, None)]);
      tx := tx.(refresh := tx.refresh[raw := RefreshToken(sid, false)]);
      var access := Issue(tx, id, version, sid);
      credentials := CredentialsFor(tx, access, raw, sid);
      db := tx;
    }

    method Refresh(raw: Token) returns (answer: Answer)
      requires Valid()
      modifies this
      ensures Valid() && (db, answer) == RefreshTx(old(db), raw)
      ensures answer.Granted? ==>
        && raw in db.refresh && answer.credentials.refresh in db.refresh
        && db.refresh[answer.credentials.refresh] == RefreshToken(db.refresh[raw].session, false)
        && (raw != answer.credentials.refresh ==> db.refresh[raw].consumed)
      ensures RefreshLaw(old(db), raw, db, answer)
    {
      RefreshLawful(db, raw);
      answer := Denied;
      var tx := db;
      if raw in tx.refresh {
        var row := tx.refresh[raw];
        var sid := row.session;
        if row.consumed {
          if sid in tx.sessions {
            tx := tx.(sessions := tx.sessions[sid := tx.sessions[sid].(revoked := true)]);
          }
          answer := Reused;
        } else {
          var live := LivePrincipal(tx, sid, false);
          var locked := sid in tx.sessions && tx.sessions[sid].locked && LivePrincipal(tx, sid, true).Some?;
          if live.Some? {
            var next := tx.nonce;
            tx := tx.(nonce := next + 1);
            tx := tx.(refresh := tx.refresh[raw := row.(consumed := true)]);
            tx := tx.(refresh := tx.refresh[next := RefreshToken(sid, false)]);
            tx := tx.(sessions := tx.sessions[sid := tx.sessions[sid].(lastSeen := tx.clock)]);
            var access := Issue(tx, live.value.id, live.value.version, sid);
            answer := Granted(CredentialsFor(tx, access, next, sid));
          } else if locked {
            answer := SessionLocked;
          }
        }
      }
      // Committed before any refusal is raised, so a replay's revocation stands.
      db := tx;
    }

    method Resolve(t: AccessToken, allowLocked: bool) returns (identity: Option<Resolved>)
      requires Valid()
      ensures identity == Sessions.Resolve(db, t, allowLocked)
      ensures ResolveLaw(db, t, allowLocked, identity)
    {
      ResolveLawful(db, t, allowLocked);
      if t.kid !in db.keys {
        return None;
      }
      if db.keys[t.kid].secret != t.signature || t.exp as real <= db.clock || db.clock < t.issuedAt as real {
        return None;
      }
      var found := t.sid in db.sessions && db.sessions[t.sid].principal == t.sub;
      if found && t.generation != db.sessions[t.sid].generation {
        return None;
      }
      if !found {
        return None;
      }
      var live := LivePrincipal(db, t.sid, allowLocked);
      if live.None? {
        return None;
      }
      var session := db.sessions[t.sid];
      return Some(Resolved(live.value, t.sid, Min(t.exp as real, Deadline(db.policy, session)), session.locked));
    }

    method RotateSigningKey()
      requires Valid()
      modifies this
      ensures Valid() && db == RotateTx(old(db))
      ensures RotateLaw(old(db), db)
    {
      RotateLawful(db);
      var now, keys := db.clock, db.keys;
      keys := keys[db.activeKey := keys[db.activeKey].(retiredAfter := Some(now + ACCESS_TTL as real))];
      var kid, secret := db.nonce, db.nonce + 1;
      keys := keys[kid := SigningKey(secret, None)];
      keys := map k | k in keys && !(keys[k].retiredAfter.Some? && keys[k].retiredAfter.value <= now) :: keys[k];
      db := db.(nonce := db.nonce + 2, activeKey := kid, keys := keys);
    }

    method Revoke(sid: Sid, id: Pid) returns (found: bool)
      requires Valid()
      modifies this
      ensures Valid() && db == RevokeTx(old(db), sid, id)
      ensures found <==> sid in old(db).sessions && old(db).sessions[sid].principal == id
      ensures Revokes(old(db), db, if found then {sid} else {})
    {
      RevokeLawful(db, sid, id);
      found := sid in db.sessions && db.sessions[sid].principal == id;
      if found {
        db := db.(sessions := db.sessions[sid := db.sessions[sid].(revoked := true)]);
      }
    }

    method RevokeAll(id: Pid)
      requires Valid()
      modifies this
      ensures Valid() && db == RevokeAllTx(old(db), id)
      ensures forall sid :: sid in db.sessions && db.sessions[sid].principal == id ==> LivePrincipal(db, sid, true).None?
      ensures Revokes(old(db), db, SessionsOf(old(db), {id}))
    {
      RevokeAllLawful(db, id);
      db := db.(sessions := map sid | sid in db.sessions ::
                  if db.sessions[sid].principal == id then db.sessions[sid].(revoked := true) else db.sessions[sid]);
    }

    /** The transactions of the account, role and group administration, each with the revocations it carries. */
    method Administer(op: Operation) returns (committed: bool)
      requires Valid()
      modifies this
      ensures Valid() && db == AdministerTx(old(db), op)
      ensures committed <==> Apply(old(db).dir, old(db).clock, op).Some?
      ensures AdministerLaw(old(db), op, db, committed)
      ensures op.Disable? ==> forall sid :: sid in db.sessions && db.sessions[sid].principal == op.p ==> db.sessions[sid].revoked
    {
      AdministerLawful(db, op);
      var change := Apply(db.dir, db.clock, op);
      committed := change.Some?;
      if committed {
        var tx := db.(dir := change.value.dir);
        tx := tx.(sessions := RevokeOwned(tx.sessions, change.value.revoked));
        db := tx;
      }
    }

    method UpdatePolicy(revision: nat, idle: int, absolute: int) returns (saved: bool)
      requires Valid()
      modifies this
      ensures Valid() && saved == UpdatePolicyTx(old(db), revision, idle, absolute).Some?
      ensures db == OrElse(UpdatePolicyTx(old(db), revision, idle, absolute), old(db))
      ensures saved ==> db.policy == Policy(idle, absolute, revision + 1)
      ensures UpdatePolicyLaw(old(db), revision, idle, absolute, db, saved)
    {
      UpdatePolicyLawful(db, revision, idle, absolute);
      if !(600 <= idle <= 30 * 86400) || !(idle <= absolute <= 365 * 86400) {
        return false;
      }
      var tx, before := db, db.policy;
      if before.revision != revision {
        return false;
      }
      var now := tx.clock;
      var newIdle := if idle <= before.idle then idle else before.idle;
      var newAbsolute := if absolute <= before.absolute then absolute else before.absolute;
      tx := tx.(sessions := map sid | sid in tx.sessions :: Tightened(tx.sessions[sid], newIdle, newAbsolute));
      tx := tx.(sessions := map sid | sid in tx.sessions :: Reaped(tx.sessions[sid], now));
      tx := tx.(policy := Policy(idle, absolute, before.revision + 1));
      db := tx;
      return true;
    }

    method Lock(sid: Sid, id: Pid) returns (locked: bool)
      requires Valid()
      modifies this
      ensures Valid() && locked == LockTx(old(db), sid, id).Some?
      ensures db == OrElse(LockTx(old(db), sid, id), old(db))
      ensures locked ==> LivePrincipal(db, sid, false).None?
      ensures LockLaw(old(db), sid, id, db, locked)
    {
      LockLawful(db, sid, id);
      var tx := db;
      var live := LivePrincipal(tx, sid, false);
      if live.None? || live.value.id != id {
        return false;
      }
      tx := tx.(sessions := tx.sessions[sid := tx.sessions[sid].(locked := true)]);
      tx := tx.(proofs := map t | t in tx.proofs :: if tx.proofs[t].sponsor == sid then tx.proofs[t].(consumed := true) else tx.proofs[t]);
      db := tx;
      return true;
    }

    /** The first half of an unlock; evidence is verified between this and `FinishUnlock`. */
    method BeginUnlock(raw: Token) returns (sid: Option<Sid>)
      requires Valid()
      ensures sid == var s := RefreshIdentity(db, raw); if s.Some? && db.sessions[s.value].locked then s else None
      ensures BeginUnlockLaw(db, raw, sid)
    {
      BeginUnlockLawful(db, raw);
      if raw !in db.refresh || db.refresh[raw].consumed {
        return None;
      }
      var row := db.refresh[raw].session;
      var live := LivePrincipal(db, row, true);
      if live.None? || !db.sessions[row].locked {
        return None;
      }
      return Some(row);
    }

    method FinishUnlock(raw: Token, sid: Sid, id: Pid, subject: Subject, adapter: string)
      returns (credentials: Option<Credentials>)
      requires Valid()
      modifies this
      ensures Valid() && Outcome(db, credentials) == FinishTx(old(db), raw, sid, id, subject, adapter)
      ensures credentials.Some? ==> sid in db.sessions && !db.sessions[sid].locked && sid in old(db).sessions && old(db).sessions[sid].locked
      ensures FinishUnlockLaw(old(db), raw, sid, id, subject, adapter, db, credentials)
    {
      FinishUnlockLawful(db, raw, sid, id, subject, adapter);
      var tx := db;
      var live := LivePrincipal(tx, sid, true);
      var proof := raw in tx.refresh && tx.refresh[raw].session == sid && !tx.refresh[raw].consumed;
      if !proof || live.None? || !tx.sessions[sid].locked || live.value.id != id {
        return None;
      }
      if subject !in tx.dir.identities || tx.dir.identities[subject] != live.value.id {
        return None;
      }
      if adapter in tx.dir.disabledMethods {
        return None;
      }
      var next := tx.nonce;
      tx := tx.(nonce := next + 1);
      tx := tx.(refresh := SpendRefresh(tx.refresh, sid));
      tx := tx.(refresh := tx.refresh[next := RefreshToken(sid, false)]);
      var row := tx.sessions[sid];
      tx := tx.(sessions := tx.sessions[sid := row.(locked := false, generation := row.generation + 1, lastSeen := tx.clock)]);
      var access := Issue(tx, live.value.id, live.value.version, sid);
      credentials := Some(CredentialsFor(tx, access, next, sid));
      db := tx;
    }

    method BindOidc(sid: Sid, id: Pid, raw: Token, adapter: string, state: Token) returns (bound: bool)
      requires Valid()
      modifies this
      ensures Valid() && bound == BindOidcTx(old(db), sid, id, raw, adapter, state).Some?
      ensures db == OrElse(BindOidcTx(old(db), sid, id, raw, adapter, state), old(db))
      ensures bound ==> state in db.flows && db.flows[state].session == sid && sid in db.sessions && db.sessions[sid].locked
      ensures bound ==> state !in old(db).flows || old(db).flows[state].expires <= old(db).clock
      ensures BindOidcLaw(old(db), sid, id, raw, adapter, state, db, bound)
    {
      BindOidcLawful(db, sid, id, raw, adapter, state);
      var tx := db;
      var live := LivePrincipal(tx, sid, true);
      if live.None? || !tx.sessions[sid].locked || live.value.id != id {
        return false;
      }
      tx := tx.(flows := LiveFlows(tx));
      if state in tx.flows {
        return false;
      }
      tx := tx.(flows := tx.flows[state := UnlockFlow(adapter, sid, raw, live.value.version, tx.clock + UNLOCK_TTL)]);
      db := tx;
      return true;
    }

    method FinishOidc(state: Token, id: Pid, version: nat, subject: Subject, adapter: string)
      returns (credentials: Option<Credentials>)
      requires Valid()
      modifies this
      ensures Valid() && Outcome(db, credentials) == FinishOidcTx(old(db), state, id, version, subject, adapter)
      ensures credentials.Some? ==> state in old(db).flows && state !in db.flows && !db.sessions[old(db).flows[state].session].locked
      ensures FinishOidcLaw(old(db), state, id, version, subject, adapter, db, credentials)
    {
      FinishOidcLawful(db, state, id, version, subject, adapter);
      if state !in db.flows || db.flows[state].adapter != adapter {
        return None;
      }
      var flow := db.flows[state];
      if flow.expires <= db.clock || version != flow.version {
        return None;
      }
      credentials := FinishUnlock(flow.refresh, flow.session, id, subject, adapter);
      if credentials.Some? {
        db := db.(flows := db.flows - {state});
      }
    }

    method IssueProof(sid: Sid, id: Pid, version: nat, purpose: Purpose, scopes: set<Scope>, path: string, legacy: bool)
      returns (ticket: Option<Token>)
      requires Valid()
      modifies this
      ensures Valid() && ticket == (if IssueProofTx(old(db), sid, id, version, purpose, scopes, path, legacy).Some? then Some(old(db).nonce) else None)
      ensures db == OrElse(IssueProofTx(old(db), sid, id, version, purpose, scopes, path, legacy), old(db))
      ensures ticket.Some? ==> ticket.value in db.proofs && !db.proofs[ticket.value].consumed && db.proofs[ticket.value].sponsor == sid
      ensures IssueProofLaw(old(db), sid, id, version, purpose, scopes, path, legacy, db, ticket)
    {
      IssueProofLawful(db, sid, id, version, purpose, scopes, path, legacy);
      var tx := db;
      var raw := tx.nonce;
      var expires := tx.clock + Ttl(purpose);
      var live := LivePrincipal(tx, sid, false);
      if live.None? || live.value.id != id || live.value.version != version || !(scopes <= live.value.scopes) {
        return None;
      }
      tx := tx.(proofs := PendingProofs(tx));
      if |Sponsored(tx.proofs, sid)| >= 20 {
        return None;
      }
      tx := tx.(nonce := raw + 1);
      tx := tx.(proofs := tx.proofs[raw := Proof(purpose, sid, live.value.id, live.value.version, scopes, expires, false, path, legacy)]);
      db := tx;
      return Some(raw);
    }

    /** Consumes a proof inside the caller's transaction; nothing is committed here. */
    method Consume(tx: Database, ticket: Token, purpose: Purpose, host: nat, path: string) returns (c: Option<Consumed>)
      ensures c == ConsumeTx(tx, ticket, purpose, host, path)
      ensures ConsumeLaw(tx, ticket, purpose, host, path, c)
    {
      ConsumeLawful(tx, ticket, purpose, host, path);
      if host != tx.hostId || ticket !in tx.proofs {
        return None;
      }
      var proof := tx.proofs[ticket];
      if proof.purpose != purpose || proof.consumed || proof.expires <= tx.clock || proof.path != path {
        return None;
      }
      var live := LivePrincipal(tx, proof.sponsor, false);
      if live.None? || live.value.id != proof.principal || live.value.version != proof.version || !(proof.scopes <= live.value.scopes) {
        return None;
      }
      return Some(Consumed(tx.(proofs := tx.proofs[ticket := proof.(consumed := true)]), proof, live.value));
    }

    method Exchange(ticket: Token, host: nat, legacyOk: bool) returns (credentials: Option<Credentials>)
      requires Valid()
      modifies this
      ensures Valid() && Outcome(db, credentials) == ExchangeTx(old(db), ticket, host, legacyOk)
      ensures credentials.Some? ==> ticket in old(db).proofs && !old(db).proofs[ticket].consumed && ticket in db.proofs && db.proofs[ticket].consumed
      ensures ExchangeLaw(old(db), ticket, host, legacyOk, db, credentials)
    {
      ExchangeLawful(db, ticket, host, legacyOk);
      var c := Consume(db, ticket, Pair, host, "");
      if c.None? {
        return None;
      }
      var tx, proof, live := c.value.db, c.value.proof, c.value.live;
      if proof.legacy && !legacyOk {
        return None;
      }
      var sid, raw := tx.nonce, tx.nonce + 1;
      tx := tx.(nonce := tx.nonce + 2);
      var now := tx.clock;
      tx := tx.(sessions := tx.sessions[sid := Session(live.id, now, now, now + tx.policy.absolute as real, tx.policy.idle,
                                                       false, false, 0, Some(proof.scopes))]);
      tx := tx.(refresh := tx.refresh[raw := RefreshToken(sid, false)]);
      var access := Issue(tx, live.id, live.version, sid);
      credentials := Some(CredentialsFor(tx, access, raw, sid));
      db := tx;
    }

    method AdmitSocket(ticket: Token, host: nat, path: string) returns (access: Option<AccessToken>)
      requires Valid()
      modifies this
      ensures Valid() && Admission(db, access) == AdmitSocketTx(old(db), ticket, host, path)
      ensures access.Some? ==> ticket in old(db).proofs && !old(db).proofs[ticket].consumed && ticket in db.proofs && db.proofs[ticket].consumed
      ensures access.Some? ==> access.value.sid == old(db).proofs[ticket].sponsor
      ensures AdmitSocketLaw(old(db), ticket, host, path, db, access)
    {
      AdmitSocketLawful(db, ticket, host, path);
      var c := Consume(db, ticket, Socket, host, path);
      if c.None? {
        return None;
      }
      var tx := c.value.db;
      access := Some(Issue(tx, c.value.live.id, c.value.live.version, c.value.proof.sponsor));
      db := tx;
    }

    method RevokeProof(sid: Sid, id: Pid, ticket: Token) returns (accepted: bool)
      requires Valid()
      modifies this
      ensures Valid() && accepted == RevokeProofTx(old(db), sid, id, ticket).Some?
      ensures db == OrElse(RevokeProofTx(old(db), sid, id, ticket), old(db))
      ensures RevokeProofLaw(old(db), sid, id, ticket, db, accepted)
    {
      RevokeProofLawful(db, sid, id, ticket);
      var live := LivePrincipal(db, sid, false);
      if live.None? || live.value.id != id {
        return false;
      }
      if ticket in db.proofs && db.proofs[ticket].sponsor == sid && db.proofs[ticket].purpose == Pair && !db.proofs[ticket].consumed {
        db := db.(proofs := db.proofs[ticket := db.proofs[ticket].(consumed := true)]);
      }
      return true;
    }
  }
}
