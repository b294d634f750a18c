/**
 Access tokens over whole runs: a rotated signing key outlives every token it
 signed, and locking a session fences off every token issued before.
 */
module AccessTokens {
  import opened Options
  import opened Directories
  import opened Administration
  import opened Sessions
  import opened SessionRuns

  type Keys = map<Kid, SigningKey>

  /** Either the token has expired, or its key is still there and will be until it has. */
  ghost predicate KeyBacks(keys: Keys, t: AccessToken, now: real) {
    if t.kid in keys
    then keys[t.kid].secret == t.signature
         && (keys[t.kid].retiredAfter.Some? ==> t.exp as real <= keys[t.kid].retiredAfter.value)
    else t.exp as real <= now
  }

  /** Everything a signed token can count on in a later state. */
  ghost predicate Backed(db: Database, t: AccessToken) {
    && t.sid in db.sessions
    && db.sessions[t.sid].principal == t.sub
    && t.generation <= db.sessions[t.sid].generation
    && t.issuedAt as real <= db.clock
    && t.exp <= t.issuedAt + ACCESS_TTL
    && t.kid < db.nonce
    && KeyBacks(db.keys, t, db.clock)
  }

  predicate SignedByActive(db: Database, t: AccessToken) {
    Usable(db) && t.kid == db.activeKey && t.signature == db.keys[db.activeKey].secret
  }

  /** The active key is the one key without a retirement date. */
  ghost predicate ActiveUnretired(db: Database) {
    Usable(db) && forall k :: k in db.keys ==> (k == db.activeKey <==> db.keys[k].retiredAfter.None?)
  }

  lemma RotationBacks(db: Database, t: AccessToken)
    requires Fresh(db) && Backed(db, t)
    ensures KeyBacks(RotateTx(db).keys, t, db.clock)
  {
    assert (db.clock + ACCESS_TTL as real).Floor == db.clock.Floor + ACCESS_TTL;
  }

  lemma RotationKeepsActive(db: Database)
    requires Fresh(db) && ActiveUnretired(db)
    ensures ActiveUnretired(RotateTx(db))
  {
  }

  lemma OtherStepsKeepKeys(db: Database, e: Event)
    requires Sane(db) && !e.Rotate?
    ensures Step(db, e).keys == db.keys && Step(db, e).activeKey == db.activeKey
  {
  }

  lemma StepBacks(db: Database, e: Event, t: AccessToken)
    requires Sane(db) && Backed(db, t)
    ensures Backed(Step(db, e), t)
  {
    StepFollows(db, e);
    assert Evolves(db, Step(db, e), t.sid);
    if e.Rotate? { RotationBacks(db, t); } else { OtherStepsKeepKeys(db, e); }
  }

  lemma {:induction false} RunBacks(db: Database, events: seq<Event>, t: AccessToken)
    requires Sane(db) && Backed(db, t)
    ensures Sane(Run(db, events)) && Backed(Run(db, events), t)
    decreases |events|
  {
    if events != [] {
      StepFollows(db, events[0]);
      StepBacks(db, events[0], t);
      RunBacks(Step(db, events[0]), events[1..], t);
    }
  }

  lemma IssueBacked(db: Database, id: Pid, version: nat, sid: Sid)
    requires Sane(db) && ActiveUnretired(db) && sid in db.sessions && db.sessions[sid].principal == id
    ensures Backed(db, Issue(db, id, version, sid))
    ensures Issue(db, id, version, sid).generation == db.sessions[sid].generation
  {
  }

  lemma EnrolIssues(db: Database, id: Pid, version: nat, grant: Option<set<Scope>>)
    requires Sane(db) && ActiveUnretired(db)
    ensures var o := Enrol(db, id, version, grant); Backed(o.db, o.credentials.value.access)
  {
    EnrolFollows(db, id, version, grant);
    IssueBacked(Enrol(db, id, version, grant).db, id, version, db.nonce);
  }

  lemma RefreshIssues(db: Database, raw: Token)
    requires Sane(db) && ActiveUnretired(db) && RefreshTx(db, raw).1.Granted?
    ensures Backed(RefreshTx(db, raw).0, RefreshTx(db, raw).1.credentials.access)
  {
    var sid, db' := db.refresh[raw].session, RefreshTx(db, raw).0;
    RefreshFollows(db, raw);
    IssueBacked(db', db.sessions[sid].principal, LivePrincipal(db, sid, false).value.version, sid);
  }

  lemma FinishIssues(db: Database, raw: Token, sid: Sid, id: Pid, subject: Subject, adapter: string)
    requires Sane(db) && ActiveUnretired(db) && FinishTx(db, raw, sid, id, subject, adapter).credentials.Some?
    ensures var o := FinishTx(db, raw, sid, id, subject, adapter); Backed(o.db, o.credentials.value.access)
  {
    FinishFollows(db, raw, sid, id, subject, adapter);
    IssueBacked(FinishTx(db, raw, sid, id, subject, adapter).db, db.sessions[sid].principal,
                LivePrincipal(db, sid, true).value.version, sid);
  }

  /** A token is backed in the state its own transaction commits. */
  lemma SignedIsBacked(db: Database, e: Event)
    requires Sane(db) && ActiveUnretired(db) && Signs(db, e).Some?
    ensures Backed(Step(db, e), Signs(db, e).value)
  {
    match e
    case Login(id, version) => EnrolIssues(db, id, version, None);
    case Refresh(raw) => RefreshIssues(db, raw);
    case Unlock(raw, sid, id, subject, adapter) => FinishIssues(db, raw, sid, id, subject, adapter);
    case FinishOidc(state, id, version, subject, adapter) =>
      FinishIssues(db, db.flows[state].refresh, db.flows[state].session, id, subject, adapter);
    case Exchange(ticket, host, legacyOk) =>
      ConsumeFollows(db, ticket, Pair, host, "");
      var c := ConsumeTx(db, ticket, Pair, host, "").value;
      EnrolIssues(c.db, c.live.id, c.live.version, Some(c.proof.scopes));
    case AdmitSocket(ticket, host, path) =>
      ConsumeFollows(db, ticket, Socket, host, path);
      var c := ConsumeTx(db, ticket, Socket, host, path).value;
      IssueBacked(c.db, c.live.id, c.live.version, c.proof.sponsor);
  }

  // --------------------------------------------------------- main results

  lemma {:induction false} RunKeepsActive(db: Database, events: seq<Event>)
    requires Sane(db) && ActiveUnretired(db)
    ensures Sane(Run(db, events)) && ActiveUnretired(Run(db, events))
    decreases |events|
  {
    if events != [] {
      StepFollows(db, events[0]);
      if events[0].Rotate? { RotationKeepsActive(db); } else { OtherStepsKeepKeys(db, events[0]); }
      RunKeepsActive(Step(db, events[0]), events[1..]);
    }
  }

  /**
   However rotations interleave with issuing: while a token is unexpired its key
   is present and verifies it, so it resolves exactly when its session is live,
   admissible and still of the token's generation.
   */
  lemma RotationNeverStrands(db: Database, e: Event, events: seq<Event>, allowLocked: bool)
    requires Sane(db) && ActiveUnretired(db) && Signs(db, e).Some?
    ensures var t, later := Signs(db, e).value, Run(Step(db, e), events);
      && (later.clock < t.exp as real ==> t.kid in later.keys && later.keys[t.kid].secret == t.signature)
      && (Resolve(later, t, allowLocked).Some? <==>
            && later.clock < t.exp as real
            && LivePrincipal(later, t.sid, allowLocked).Some?
            && t.generation == later.sessions[t.sid].generation)
  {
    StepFollows(db, e);
    SignedIsBacked(db, e);
    RunBacks(Step(db, e), events, Signs(db, e).value);
  }

  /** Once its session has been locked, a token issued before never resolves normally again, even after unlocking. */
  lemma LockFencesForever(db: Database, t: AccessToken, events: seq<Event>)
    requires Sane(db) && Backed(db, t) && db.sessions[t.sid].locked
    ensures Resolve(Run(db, events), t, false).None?
  {
    RunFollows(db, events);
    assert Evolves(db, Run(db, events), t.sid);
  }

  /** The session a step unlocks. */
  function Unlocks(db: Database, e: Event): Option<Sid>
    requires Usable(db)
  {
    match e
    case Unlock(raw, sid, id, subject, adapter) =>
      if FinishTx(db, raw, sid, id, subject, adapter).credentials.Some? then Some(sid) else None
    case FinishOidc(state, id, version, subject, adapter) =>
      if FinishOidcTx(db, state, id, version, subject, adapter).credentials.Some? then Some(db.flows[state].session) else None
    case _ => None
  }

  /** Unlocking rewrites only the lock, the generation and the time last seen. */
  lemma UnlockKeepsTheRest(db: Database, e: Event)
    requires Sane(db) && Unlocks(db, e).Some?
    ensures var sid, db' := Unlocks(db, e).value, Step(db, e);
      && sid in db.sessions && db.sessions[sid].locked
      && db'.sessions == db.sessions[sid := db.sessions[sid].(
           locked := false, generation := db.sessions[sid].generation + 1, lastSeen := db.clock)]
  {
  }

  /** After an unlock no token issued before it ever resolves again, locked or not. */
  lemma UnlockFencesForever(db: Database, t: AccessToken, e: Event, events: seq<Event>, allowLocked: bool)
    requires Sane(db) && Backed(db, t) && Unlocks(db, e) == Some(t.sid)
    ensures Resolve(Run(Step(db, e), events), t, allowLocked).None?
  {
    var after := Step(db, e);
    StepFollows(db, e);
    UnlockKeepsTheRest(db, e);
    RunFollows(after, events);
    assert Evolves(after, Run(after, events), t.sid);
  }

  /** The token a step issued is still backed at the end of any run after it. */
  lemma IssuedStaysBacked(db: Database, e: Event, events: seq<Event>)
    requires Sane(db) && ActiveUnretired(db) && Signs(db, e).Some?
    ensures Sane(Run(Step(db, e), events)) && Backed(Run(Step(db, e), events), Signs(db, e).value)
  {
    StepFollows(db, e);
    SignedIsBacked(db, e);
    RunBacks(Step(db, e), events, Signs(db, e).value);
  }

  /**
   Issue, any run, a lock of the token's session that is granted, any run: the
   token does not resolve normally.
   */
  lemma LockFencesIssued(db: Database, e: Event, before: seq<Event>, id: Pid, after: seq<Event>)
    requires Sane(db) && ActiveUnretired(db) && Signs(db, e).Some?
    requires LockTx(Run(Step(db, e), before), Signs(db, e).value.sid, id).Some?
    ensures var t := Signs(db, e).value;
      Resolve(Run(Step(Run(Step(db, e), before), Lock(t.sid, id)), after), t, false).None?
  {
    var t, asked := Signs(db, e).value, Run(Step(db, e), before);
    IssuedStaysBacked(db, e, before);
    StepFollows(asked, Lock(t.sid, id));
    StepBacks(asked, Lock(t.sid, id), t);
    LockFencesForever(Step(asked, Lock(t.sid, id)), t, after);
  }

  /** Issue, any run, an unlock of the token's session, any run: the token does not resolve at all. */
  lemma UnlockFencesIssued(db: Database, e: Event, before: seq<Event>, unlock: Event, after: seq<Event>, allowLocked: bool)
    requires Sane(db) && ActiveUnretired(db) && Signs(db, e).Some?
    requires Unlocks(Run(Step(db, e), before), unlock) == Some(Signs(db, e).value.sid)
    ensures Resolve(Run(Step(Run(Step(db, e), before), unlock), after), Signs(db, e).value, allowLocked).None?
  {
    IssuedStaysBacked(db, e, before);
    UnlockFencesForever(Run(Step(db, e), before), Signs(db, e).value, unlock, after, allowLocked);
  }
}
