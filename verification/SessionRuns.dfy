/**
 What every step of the session authority keeps, and what therefore holds over
 whole runs: sessions only tighten, dead sessions stay dead, spent credentials
 stay spent.
 */
module SessionRuns {
  import opened Options
  import opened Directories
  import opened Administration
  import opened Sessions

  /** Every identifier in use was drawn from the counter. */
  ghost predicate Fresh(db: Database) {
    && (forall sid :: sid in db.sessions ==> sid < db.nonce)
    && (forall t :: t in db.refresh ==> t < db.nonce && db.refresh[t].session in db.sessions)
    && (forall t :: t in db.proofs ==> t < db.nonce)
    && (forall k :: k in db.keys ==> k < db.nonce)
  }

  /** No session outlives the policy in force. */
  ghost predicate Tight(db: Database) {
    forall sid :: sid in db.sessions ==>
      && db.sessions[sid].expires <= db.sessions[sid].created + db.policy.absolute as real
      && db.sessions[sid].idle <= db.policy.idle
  }

  /** One session row from one state to a later one. */
  ghost predicate Evolves(db: Database, db': Database, sid: Sid)
    requires sid in db.sessions
  {
    && sid in db'.sessions
    && var s, s' := db.sessions[sid], db'.sessions[sid];
    && s'.principal == s.principal && s'.created == s.created && s'.grant == s.grant
    && s'.expires <= s.expires && s'.idle <= s.idle
    && s.generation <= s'.generation
    && (s.locked && !s'.locked ==> s.generation < s'.generation)
    && (s.revoked ==> s'.revoked)
    && (Dead(db, sid) ==> Dead(db', sid))
  }

  ghost predicate Follows(db: Database, db': Database) {
    && db.clock <= db'.clock && db.nonce <= db'.nonce
    && (forall sid :: sid in db.sessions ==> Evolves(db, db', sid))
    && (forall sid :: sid in db'.sessions && sid !in db.sessions ==> db.nonce <= sid)
  }

  /** One step lowers each session's limits to the policy it puts in force, and no further. */
  ghost predicate Limits(db: Database, db': Database) {
    forall sid :: sid in db.sessions ==>
      && sid in db'.sessions
      && db'.sessions[sid].idle == MinInt(db.sessions[sid].idle, db'.policy.idle)
      && db'.sessions[sid].expires == Min(db.sessions[sid].expires, db.sessions[sid].created + db'.policy.absolute as real)
  }

  /** What a single committed transaction does to the session rows. */
  ghost predicate Steps(db: Database, db': Database) {
    Tight(db') && Follows(db, db') && Limits(db, db')
  }

  lemma TightDeadline(db: Database, sid: Sid)
    requires Tight(db) && sid in db.sessions
    ensures Deadline(db.policy, db.sessions[sid]) == StoredDeadline(db.sessions[sid])
  {
  }

  // ------------------------------------------------- the shapes of a step

  lemma SameSessions(db: Database, db': Database)
    requires Fresh(db) && Tight(db)
    requires db'.sessions == db.sessions && db'.policy == db.policy
    requires db.clock <= db'.clock && db.nonce <= db'.nonce
    ensures Steps(db, db')
  {
  }

  /** Only the row of `sid` changes, and only within its own limits. */
  lemma OneSession(db: Database, db': Database, sid: Sid, s': Session)
    requires Fresh(db) && Tight(db) && sid in db.sessions
    requires db'.sessions == db.sessions[sid := s'] && db'.policy == db.policy
    requires db'.clock == db.clock && db.nonce <= db'.nonce
    requires var s := db.sessions[sid];
      && s' == s.(revoked := s'.revoked, locked := s'.locked, generation := s'.generation, lastSeen := s'.lastSeen)
      && s.generation <= s'.generation
      && (s.locked && !s'.locked ==> s.generation < s'.generation)
      && (s.revoked ==> s'.revoked)
      && (s'.lastSeen == s.lastSeen || !Dead(db, sid))
    ensures Steps(db, db')
  {
  }

  lemma EnrolFollows(db: Database, id: Pid, version: nat, grant: Option<set<Scope>>)
    requires Usable(db) && Fresh(db) && Tight(db)
    ensures var db' := Enrol(db, id, version, grant).db;
      Steps(db, db') && Fresh(db')
  {
  }

  lemma RevokeOwnedFollows(db: Database, db': Database, ps: set<Pid>)
    requires Fresh(db) && Tight(db)
    requires db' == db.(sessions := RevokeOwned(db.sessions, ps), dir := db'.dir)
    ensures Steps(db, db') && Fresh(db')
  {
  }

  /** The reaping clause revokes exactly the sessions past their deadline under the tightened limits. */
  lemma ReapsExactlyTheDead(db: Database, revision: nat, idle: int, absolute: int, sid: Sid)
    requires Tight(db) && sid in db.sessions
    requires UpdatePolicyTx(db, revision, idle, absolute).Some?
    ensures var db' := UpdatePolicyTx(db, revision, idle, absolute).value;
      && db'.sessions[sid].revoked == Dead(db', sid)
      && (db'.sessions[sid].revoked <==>
            db.sessions[sid].revoked ||
            Deadline(Policy(MinInt(idle, db.policy.idle), MinInt(absolute, db.policy.absolute), 0), db.sessions[sid]) <= db.clock)
  {
  }

  lemma UpdatePolicyFollows(db: Database, revision: nat, idle: int, absolute: int)
    requires Fresh(db) && Tight(db)
    requires UpdatePolicyTx(db, revision, idle, absolute).Some?
    ensures var db' := UpdatePolicyTx(db, revision, idle, absolute).value;
      Steps(db, db') && Fresh(db')
  {
    var db' := UpdatePolicyTx(db, revision, idle, absolute).value;
    forall sid | sid in db.sessions
      ensures Evolves(db, db', sid)
    {
      ReapsExactlyTheDead(db, revision, idle, absolute, sid);
      if Dead(db, sid) {
        assert Deadline(Policy(MinInt(idle, db.policy.idle), MinInt(absolute, db.policy.absolute), 0), db.sessions[sid])
            <= Deadline(db.policy, db.sessions[sid]);
      }
    }
  }

  lemma RefreshFresh(db: Database, raw: Token)
    requires Usable(db) && Fresh(db)
    ensures Fresh(RefreshTx(db, raw).0)
  {
  }

  lemma RefreshFollows(db: Database, raw: Token)
    requires Usable(db) && Fresh(db) && Tight(db)
    ensures var db' := RefreshTx(db, raw).0;
      Steps(db, db') && Fresh(db')
  {
    RefreshFresh(db, raw);
    var db' := RefreshTx(db, raw).0;
    if raw in db.refresh && db'.sessions != db.sessions {
      var sid := db.refresh[raw].session;
      OneSession(db, db', sid, db'.sessions[sid]);
    } else {
      SameSessions(db, db');
    }
  }

  lemma FinishFollows(db: Database, raw: Token, sid: Sid, id: Pid, subject: Subject, adapter: string)
    requires Usable(db) && Fresh(db) && Tight(db)
    ensures var db' := FinishTx(db, raw, sid, id, subject, adapter).db;
      Steps(db, db') && Fresh(db')
  {
    var o := FinishTx(db, raw, sid, id, subject, adapter);
    if o.credentials.Some? {
      OneSession(db, o.db, sid, o.db.sessions[sid]);
    } else {
      SameSessions(db, o.db);
    }
  }

  lemma FinishOidcFollows(db: Database, state: Token, id: Pid, version: nat, subject: Subject, adapter: string)
    requires Usable(db) && Fresh(db) && Tight(db)
    ensures var db' := FinishOidcTx(db, state, id, version, subject, adapter).db;
      Steps(db, db') && Fresh(db')
  {
    var o := FinishOidcTx(db, state, id, version, subject, adapter);
    if o.credentials.Some? {
      FinishFollows(db, db.flows[state].refresh, db.flows[state].session, id, subject, adapter);
      var sid := db.flows[state].session;
      OneSession(db, o.db, sid, o.db.sessions[sid]);
    } else {
      SameSessions(db, o.db);
    }
  }

  lemma LockFollows(db: Database, sid: Sid, id: Pid)
    requires Fresh(db) && Tight(db) && LockTx(db, sid, id).Some?
    ensures var db' := LockTx(db, sid, id).value;
      Steps(db, db') && Fresh(db')
  {
    var db' := LockTx(db, sid, id).value;
    OneSession(db, db', sid, db'.sessions[sid]);
  }

  lemma RevokeFollows(db: Database, sid: Sid, id: Pid)
    requires Fresh(db) && Tight(db)
    ensures var db' := RevokeTx(db, sid, id);
      Steps(db, db') && Fresh(db')
  {
    var db' := RevokeTx(db, sid, id);
    if sid in db.sessions { OneSession(db, db', sid, db'.sessions[sid]); } else { SameSessions(db, db'); }
  }

  lemma ConsumeFollows(db: Database, ticket: Token, purpose: Purpose, host: nat, path: string)
    requires Fresh(db) && Tight(db) && ConsumeTx(db, ticket, purpose, host, path).Some?
    ensures var db' := ConsumeTx(db, ticket, purpose, host, path).value.db;
      db'.sessions == db.sessions && db'.nonce == db.nonce && Steps(db, db') && Fresh(db')
  {
    SameSessions(db, ConsumeTx(db, ticket, purpose, host, path).value.db);
  }

  lemma FollowsTransitive(a: Database, b: Database, c: Database)
    requires Follows(a, b) && Follows(b, c)
    ensures Follows(a, c)
  {
    forall sid | sid in a.sessions
      ensures Evolves(a, c, sid)
    {
      assert Evolves(a, b, sid) && Evolves(b, c, sid);
    }
    forall sid | sid in c.sessions && sid !in a.sessions
      ensures a.nonce <= sid
    {
      if sid !in b.sessions { assert b.nonce <= sid; }
    }
  }

  lemma ExchangeFollows(db: Database, ticket: Token, host: nat, legacyOk: bool)
    requires Usable(db) && Fresh(db) && Tight(db)
    ensures var db' := ExchangeTx(db, ticket, host, legacyOk).db;
      Steps(db, db') && Fresh(db')
  {
    var o := ExchangeTx(db, ticket, host, legacyOk);
    if o.credentials.Some? {
      ConsumeFollows(db, ticket, Pair, host, "");
      var c := ConsumeTx(db, ticket, Pair, host, "").value;
      EnrolFollows(c.db, c.live.id, c.live.version, Some(c.proof.scopes));
      FollowsTransitive(db, c.db, o.db);
    } else {
      SameSessions(db, db);
    }
  }

  lemma RotateFollows(db: Database)
    requires Fresh(db) && Tight(db)
    ensures var db' := RotateTx(db);
      Steps(db, db') && Fresh(db')
  {
    SameSessions(db, RotateTx(db));
  }

  lemma IssueProofFollows(db: Database, sid: Sid, id: Pid, version: nat, purpose: Purpose,
                          scopes: set<Scope>, path: string, legacy: bool)
    requires Fresh(db) && Tight(db) && IssueProofTx(db, sid, id, version, purpose, scopes, path, legacy).Some?
    ensures var db' := IssueProofTx(db, sid, id, version, purpose, scopes, path, legacy).value;
      Steps(db, db') && Fresh(db')
  {
    SameSessions(db, IssueProofTx(db, sid, id, version, purpose, scopes, path, legacy).value);
  }

  lemma AdministerFollows(db: Database, op: Operation)
    requires Fresh(db) && Tight(db)
    ensures var db' := AdministerTx(db, op);
      Steps(db, db') && Fresh(db')
  {
    var c := Apply(db.dir, db.clock, op);
    if c.None? {
      SameSessions(db, db);
    } else {
      RevokeOwnedFollows(db, db.(dir := c.value.dir, sessions := RevokeOwned(db.sessions, c.value.revoked)), c.value.revoked);
    }
  }

  /** What the whole session authority keeps from one committed transaction to the next. */
  ghost predicate Sane(db: Database) {
    Usable(db) && Fresh(db) && Tight(db)
  }

  predicate Signing(e: Event) {
    e.Login? || e.Refresh? || e.Unlock? || e.FinishOidc? || e.Exchange? || e.AdmitSocket?
  }

  predicate Recording(e: Event) {
    e.Advance? || e.Lock? || e.BindOidc? || e.IssueProof? || e.RevokeProof?
  }

  lemma SigningFollows(db: Database, e: Event)
    requires Sane(db) && Signing(e)
    ensures Sane(Step(db, e)) && Steps(db, Step(db, e))
  {
    match e
    case Login(id, version) => EnrolFollows(db, id, version, None);
    case Refresh(raw) => RefreshFollows(db, raw);
    case Unlock(raw, sid, id, subject, adapter) => FinishFollows(db, raw, sid, id, subject, adapter);
    case FinishOidc(state, id, version, subject, adapter) => FinishOidcFollows(db, state, id, version, subject, adapter);
    case Exchange(ticket, host, legacyOk) => ExchangeFollows(db, ticket, host, legacyOk);
    case AdmitSocket(ticket, host, path) =>
      if ConsumeTx(db, ticket, Socket, host, path).Some? { ConsumeFollows(db, ticket, Socket, host, path); } else { SameSessions(db, db); }
  }

  lemma RecordingFollows(db: Database, e: Event)
    requires Sane(db) && Recording(e)
    ensures Sane(Step(db, e)) && Steps(db, Step(db, e))
  {
    if e.Lock? && LockTx(db, e.sid, e.id).Some? {
      LockFollows(db, e.sid, e.id);
    } else if e.IssueProof? && IssueProofTx(db, e.sid, e.id, e.version, e.purpose, e.scopes, e.path, e.legacy).Some? {
      IssueProofFollows(db, e.sid, e.id, e.version, e.purpose, e.scopes, e.path, e.legacy);
    } else {
      SameSessions(db, Step(db, e));
    }
  }

  lemma GoverningFollows(db: Database, e: Event)
    requires Sane(db) && !Signing(e) && !Recording(e)
    ensures Sane(Step(db, e)) && Steps(db, Step(db, e))
  {
    match e
    case Rotate => RotateFollows(db);
    case UpdatePolicy(revision, idle, absolute) =>
      if UpdatePolicyTx(db, revision, idle, absolute).Some? { UpdatePolicyFollows(db, revision, idle, absolute); } else { SameSessions(db, db); }
    case Revoke(sid, id) => RevokeFollows(db, sid, id);
    case RevokeAll(id) => RevokeOwnedFollows(db, RevokeAllTx(db, id), {id});
    case Administer(op) => AdministerFollows(db, op);
  }

  lemma StepFollows(db: Database, e: Event)
    requires Sane(db)
    ensures Sane(Step(db, e)) && Steps(db, Step(db, e))
  {
    if Signing(e) { SigningFollows(db, e); }
    else if Recording(e) { RecordingFollows(db, e); }
    else { GoverningFollows(db, e); }
  }

  lemma {:induction false} RunFollows(db: Database, events: seq<Event>)
    requires Sane(db)
    ensures Sane(Run(db, events)) && Follows(db, Run(db, events))
    decreases |events|
  {
    if events == [] {
      SameSessions(db, db);
    } else {
      StepFollows(db, events[0]);
      RunFollows(Step(db, events[0]), events[1..]);
      FollowsTransitive(db, Step(db, events[0]), Run(db, events));
    }
  }

  // ------------------------------------------------------- main results

  /** A session once revoked or past its deadline never lives again, whatever happens afterwards. */
  lemma NoResurrection(db: Database, events: seq<Event>, sid: Sid, allowLocked: bool)
    requires Sane(db) && sid in db.sessions && Dead(db, sid)
    ensures var later := Run(db, events);
      && sid in later.sessions && Dead(later, sid)
      && LivePrincipal(later, sid, allowLocked).None?
  {
    RunFollows(db, events);
  }

  /** The absolute end of a session never rises and its owner, birth and grant never change. */
  lemma SessionsOnlyTighten(db: Database, events: seq<Event>, sid: Sid)
    requires Sane(db) && sid in db.sessions
    ensures var later := Run(db, events);
      && sid in later.sessions
      && var s, s' := db.sessions[sid], later.sessions[sid];
      && s'.expires <= s.expires && s'.idle <= s.idle
      && s'.principal == s.principal && s'.created == s.created && s'.grant == s.grant
      && (s.revoked ==> s'.revoked)
      && Deadline(later.policy, s') == StoredDeadline(s')
  {
    RunFollows(db, events);
    assert Evolves(db, Run(db, events), sid);
    TightDeadline(Run(db, events), sid);
  }

  // -------------------------------------------------- the limits of a session

  /** The policies in force along a run, the current one first. */
  function Policies(db: Database, events: seq<Event>): (ps: seq<Policy>)
    requires Usable(db)
    ensures |ps| > 0
    decreases |events|
  {
    if events == [] then [db.policy] else [db.policy] + Policies(Step(db, events[0]), events[1..])
  }

  function LeastIdle(ps: seq<Policy>): int
    requires |ps| > 0
  {
    if |ps| == 1 then ps[0].idle else MinInt(ps[0].idle, LeastIdle(ps[1..]))
  }

  function LeastAbsolute(ps: seq<Policy>): int
    requires |ps| > 0
  {
    if |ps| == 1 then ps[0].absolute else MinInt(ps[0].absolute, LeastAbsolute(ps[1..]))
  }

  /** `after` is `before` with its limits cut to these. */
  predicate Cut(before: Session, after: Session, idle: int, absolute: int) {
    && after.created == before.created && after.idle == MinInt(before.idle, idle)
    && after.expires == Min(before.expires, before.created + absolute as real)
  }

  /** One more policy at the front: `p` already applied, `q` next, then the least of the rest. */
  lemma CutTwice(s: Session, s1: Session, s2: Session, p: Policy, q: Policy, idle: int, absolute: int)
    requires s.idle <= p.idle && s.expires <= s.created + p.absolute as real
    requires idle <= q.idle && absolute <= q.absolute
    requires Cut(s, s1, q.idle, q.absolute) && Cut(s1, s2, idle, absolute)
    ensures Cut(s, s2, MinInt(p.idle, idle), MinInt(p.absolute, absolute))
  {
  }

  lemma LongerPolicies(db: Database, events: seq<Event>)
    requires Usable(db) && events != []
    ensures var ps, rest := Policies(db, events), Policies(Step(db, events[0]), events[1..]);
            LeastIdle(ps) == MinInt(db.policy.idle, LeastIdle(rest)) && LeastAbsolute(ps) == MinInt(db.policy.absolute, LeastAbsolute(rest))
  {
    assert Policies(db, events)[1..] == Policies(Step(db, events[0]), events[1..]);
  }

  lemma WithinPolicy(db: Database, sid: Sid)
    requires Sane(db) && sid in db.sessions
    ensures var s := db.sessions[sid]; s.idle <= db.policy.idle && s.expires <= s.created + db.policy.absolute as real
  {
  }

  /**
   After any run, a session's idle limit is the least idle limit in force since
   the run began, and its lifetime the least absolute limit, starting from its own.
   */
  lemma {:induction false} LimitsAreMinima(db: Database, events: seq<Event>, sid: Sid)
    requires Sane(db) && sid in db.sessions
    ensures sid in Run(db, events).sessions
    ensures var ps := Policies(db, events); Cut(db.sessions[sid], Run(db, events).sessions[sid], LeastIdle(ps), LeastAbsolute(ps))
    decreases |events|
  {
    WithinPolicy(db, sid);
    if events != [] {
      var db1, rest := Step(db, events[0]), Policies(Step(db, events[0]), events[1..]);
      LimitStep(db, events[0], sid);
      LimitsAreMinima(db1, events[1..], sid);
      LongerPolicies(db, events);
      FirstPolicy(db1, events[1..]);
      CutTwice(db.sessions[sid], db1.sessions[sid], Run(db1, events[1..]).sessions[sid],
        db.policy, db1.policy, LeastIdle(rest), LeastAbsolute(rest));
    }
  }

  lemma LimitStep(db: Database, e: Event, sid: Sid)
    requires Sane(db) && sid in db.sessions
    ensures Sane(Step(db, e)) && sid in Step(db, e).sessions
    ensures var p := Step(db, e).policy; Cut(db.sessions[sid], Step(db, e).sessions[sid], p.idle, p.absolute)
  {
    StepFollows(db, e);
    assert Evolves(db, Step(db, e), sid);
  }

  lemma FirstPolicy(db: Database, events: seq<Event>)
    requires Usable(db)
    ensures Policies(db, events)[0] == db.policy
    ensures LeastIdle(Policies(db, events)) <= db.policy.idle
    ensures LeastAbsolute(Policies(db, events)) <= db.policy.absolute
  {
  }

  /** For a session enrolled now, those minima are its limits exactly. */
  lemma EnrolledLimits(db: Database, id: Pid, version: nat, grant: Option<set<Scope>>, events: seq<Event>)
    requires Sane(db)
    ensures var born := Enrol(db, id, version, grant).db;
      var later, ps := Run(born, events), Policies(born, events);
      && db.nonce in later.sessions
      && later.sessions[db.nonce].idle == LeastIdle(ps)
      && later.sessions[db.nonce].expires == later.sessions[db.nonce].created + LeastAbsolute(ps) as real
  {
    var born := Enrol(db, id, version, grant).db;
    EnrolFollows(db, id, version, grant);
    LimitsAreMinima(born, events, db.nonce);
    RunFollows(born, events);
    assert Evolves(born, Run(born, events), db.nonce);
    FirstPolicy(born, events);
  }
}
