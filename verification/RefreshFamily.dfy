/**
 Refresh tokens: each session has exactly one that is unconsumed, none is ever
 accepted twice, and replaying a consumed one ends the session for good.
 */
module RefreshFamily {
  import opened Options
  import opened Directories
  import opened Sessions
  import opened SessionRuns

  type Table = map<Token, RefreshToken>

  ghost predicate IsCurrent(table: Table, sid: Sid, t: Token) {
    && t in table && table[t] == RefreshToken(sid, false)
    && forall u :: u in table && table[u] == RefreshToken(sid, false) ==> u == t
  }

  ghost predicate OneCurrent(table: Table, sid: Sid) {
    exists t :: IsCurrent(table, sid, t)
  }

  ghost predicate FamilyOver(table: Table, sids: set<Sid>) {
    forall sid :: sid in sids ==> OneCurrent(table, sid)
  }

  ghost predicate Family(db: Database) {
    FamilyOver(db.refresh, db.sessions.Keys)
  }

  /** Rows are never removed or moved to another session, and consumption is final. */
  ghost predicate Grows(table: Table, table': Table) {
    forall t :: t in table ==>
      && t in table'
      && table'[t].session == table[t].session
      && (table[t].consumed ==> table'[t].consumed)
  }

  ghost predicate Spends(db: Database, db': Database) {
    Grows(db.refresh, db'.refresh)
  }

  predicate Spent(db: Database, t: Token) {
    t in db.refresh && db.refresh[t].consumed
  }

  /** The refresh token a step accepts as proof, by refreshing or by either way of unlocking. */
  function Accepts(db: Database, e: Event): Option<Token>
    requires Usable(db)
  {
    match e
    case Refresh(raw) => if RefreshTx(db, raw).1.Granted? then Some(raw) else None
    case Unlock(raw, sid, id, subject, adapter) =>
      if FinishTx(db, raw, sid, id, subject, adapter).credentials.Some? then Some(raw) else None
    case FinishOidc(state, id, version, subject, adapter) =>
      if FinishOidcTx(db, state, id, version, subject, adapter).credentials.Some? then Some(db.flows[state].refresh) else None
    case _ => None
  }

  // ------------------------------------------------- the shapes of a step

  function Swapped(table: Table, raw: Token, next: Token, sid: Sid): Table {
    table[raw := RefreshToken(sid, true)][next := RefreshToken(sid, false)]
  }

  function SpentFor(table: Table, next: Token, sid: Sid): Table {
    SpendRefresh(table, sid)[next := RefreshToken(sid, false)]
  }

  lemma InsertFamily(table: Table, sids: set<Sid>, sid: Sid, next: Token)
    requires FamilyOver(table, sids) && next !in table && sid !in sids
    requires forall t :: t in table ==> table[t].session in sids
    ensures FamilyOver(table[next := RefreshToken(sid, false)], sids + {sid})
    ensures Grows(table, table[next := RefreshToken(sid, false)])
  {
    var table' := table[next := RefreshToken(sid, false)];
    forall other | other in sids + {sid}
      ensures OneCurrent(table', other)
    {
      if other == sid {
        assert IsCurrent(table', sid, next);
      } else {
        assert OneCurrent(table, other);
        var t :| IsCurrent(table, other, t);
        assert IsCurrent(table', other, t);
      }
    }
  }

  lemma SwapFamily(table: Table, sids: set<Sid>, sid: Sid, raw: Token, next: Token)
    requires FamilyOver(table, sids) && next !in table
    requires raw in table && table[raw] == RefreshToken(sid, false)
    ensures FamilyOver(Swapped(table, raw, next, sid), sids)
    ensures Grows(table, Swapped(table, raw, next, sid))
  {
    var table' := Swapped(table, raw, next, sid);
    forall other | other in sids
      ensures OneCurrent(table', other)
    {
      assert OneCurrent(table, other);
      var t :| IsCurrent(table, other, t);
      assert IsCurrent(table', other, if other == sid then next else t);
    }
  }

  lemma SpendFamily(table: Table, sids: set<Sid>, sid: Sid, next: Token)
    requires FamilyOver(table, sids) && next !in table
    ensures FamilyOver(SpentFor(table, next, sid), sids)
    ensures Grows(table, SpentFor(table, next, sid))
  {
    var table' := SpentFor(table, next, sid);
    forall other | other in sids
      ensures OneCurrent(table', other)
    {
      assert OneCurrent(table, other);
      var t :| IsCurrent(table, other, t);
      assert IsCurrent(table', other, if other == sid then next else t);
    }
  }

  lemma EnrolFamily(db: Database, id: Pid, version: nat, grant: Option<set<Scope>>)
    requires Sane(db) && Family(db)
    ensures var db' := Enrol(db, id, version, grant).db; Family(db') && Spends(db, db')
  {
    InsertFamily(db.refresh, db.sessions.Keys, db.nonce, db.nonce + 1);
    assert Enrol(db, id, version, grant).db.sessions.Keys == db.sessions.Keys + {db.nonce};
  }

  /** What refreshing does to the token table, granted or not. */
  lemma RefreshTable(db: Database, raw: Token)
    requires Sane(db)
    ensures var (db', answer) := RefreshTx(db, raw);
      && db'.sessions.Keys == db.sessions.Keys
      && (if answer.Granted?
          then raw in db.refresh && !db.refresh[raw].consumed && db'.refresh == Swapped(db.refresh, raw, db.nonce, db.refresh[raw].session)
          else db'.refresh == db.refresh)
  {
  }

  lemma FinishTable(db: Database, raw: Token, sid: Sid, id: Pid, subject: Subject, adapter: string)
    requires Sane(db)
    ensures var o := FinishTx(db, raw, sid, id, subject, adapter);
      && o.db.sessions.Keys == db.sessions.Keys
      && (if o.credentials.Some?
          then raw in db.refresh && db.refresh[raw] == RefreshToken(sid, false) && o.db.refresh == SpentFor(db.refresh, db.nonce, sid)
          else o.db == db)
  {
  }

  lemma RefreshKeepsFamily(db: Database, raw: Token)
    requires Sane(db) && Family(db)
    ensures var (db', answer) := RefreshTx(db, raw);
      && Family(db') && Spends(db, db')
      && (answer.Granted? ==> raw in db.refresh && !Spent(db, raw) && Spent(db', raw))
  {
    RefreshTable(db, raw);
    var (db', answer) := RefreshTx(db, raw);
    if answer.Granted? { SwapFamily(db.refresh, db.sessions.Keys, db.refresh[raw].session, raw, db.nonce); }
  }

  lemma FinishKeepsFamily(db: Database, raw: Token, sid: Sid, id: Pid, subject: Subject, adapter: string)
    requires Sane(db) && Family(db)
    ensures var o := FinishTx(db, raw, sid, id, subject, adapter);
      && Family(o.db) && Spends(db, o.db)
      && (o.credentials.Some? ==> raw in db.refresh && !Spent(db, raw) && Spent(o.db, raw))
  {
    FinishTable(db, raw, sid, id, subject, adapter);
    var o := FinishTx(db, raw, sid, id, subject, adapter);
    if o.credentials.Some? { SpendFamily(db.refresh, db.sessions.Keys, sid, db.nonce); }
  }

  lemma SameFamily(db: Database, db': Database)
    requires Family(db)
    requires db'.refresh == db.refresh && db'.sessions.Keys == db.sessions.Keys
    ensures Family(db') && Spends(db, db')
  {
  }

  predicate Tokening(e: Event) {
    e.Login? || e.Refresh? || e.Unlock? || e.FinishOidc? || e.Exchange?
  }

  lemma OtherStepsKeepTokens(db: Database, e: Event)
    requires Sane(db) && !Tokening(e)
    ensures Step(db, e).refresh == db.refresh && Step(db, e).sessions.Keys == db.sessions.Keys
  {
  }

  lemma FinishOidcKeepsFamily(db: Database, state: Token, id: Pid, version: nat, subject: Subject, adapter: string)
    requires Sane(db) && Family(db)
    ensures var o := FinishOidcTx(db, state, id, version, subject, adapter);
      && Family(o.db) && Spends(db, o.db)
      && (o.credentials.Some? ==>
            && db.flows[state].refresh in db.refresh
            && !Spent(db, db.flows[state].refresh) && Spent(o.db, db.flows[state].refresh))
  {
    var o := FinishOidcTx(db, state, id, version, subject, adapter);
    if o.credentials.Some? {
      var flow := db.flows[state];
      FinishKeepsFamily(db, flow.refresh, flow.session, id, subject, adapter);
      SameFamily(FinishTx(db, flow.refresh, flow.session, id, subject, adapter).db, o.db);
    } else {
      SameFamily(db, o.db);
    }
  }

  lemma ExchangeKeepsFamily(db: Database, ticket: Token, host: nat, legacyOk: bool)
    requires Sane(db) && Family(db)
    ensures var db' := ExchangeTx(db, ticket, host, legacyOk).db; Family(db') && Spends(db, db')
  {
    if ExchangeTx(db, ticket, host, legacyOk).credentials.Some? {
      var c := ConsumeTx(db, ticket, Pair, host, "").value;
      ConsumeFollows(db, ticket, Pair, host, "");
      SameFamily(db, c.db);
      EnrolFamily(c.db, c.live.id, c.live.version, Some(c.proof.scopes));
    } else {
      SameFamily(db, db);
    }
  }

  lemma StepFamily(db: Database, e: Event)
    requires Sane(db) && Family(db)
    ensures Family(Step(db, e)) && Spends(db, Step(db, e))
  {
    match e
    case Login(id, version) => EnrolFamily(db, id, version, None);
    case Refresh(raw) => RefreshKeepsFamily(db, raw);
    case Unlock(raw, sid, id, subject, adapter) => FinishKeepsFamily(db, raw, sid, id, subject, adapter);
    case FinishOidc(state, id, version, subject, adapter) => FinishOidcKeepsFamily(db, state, id, version, subject, adapter);
    case Exchange(ticket, host, legacyOk) => ExchangeKeepsFamily(db, ticket, host, legacyOk);
    case _ =>
      OtherStepsKeepTokens(db, e);
      SameFamily(db, Step(db, e));
  }

  /** Accepting a token takes it unconsumed and leaves it consumed. */
  lemma AcceptanceSpends(db: Database, e: Event)
    requires Sane(db) && Family(db) && Accepts(db, e).Some?
    ensures var raw := Accepts(db, e).value;
      raw in db.refresh && !Spent(db, raw) && Spent(Step(db, e), raw)
  {
    match e
    case Refresh(raw) => RefreshKeepsFamily(db, raw);
    case Unlock(raw, sid, id, subject, adapter) => FinishKeepsFamily(db, raw, sid, id, subject, adapter);
    case FinishOidc(state, id, version, subject, adapter) => FinishOidcKeepsFamily(db, state, id, version, subject, adapter);
  }

  // --------------------------------------------------------- main results

  /** In every state a run can reach, each session has exactly one unconsumed refresh token. */
  lemma {:induction false} RunFamily(db: Database, events: seq<Event>)
    requires Sane(db) && Family(db)
    ensures var later := Run(db, events); Sane(later) && Family(later) && Spends(db, later)
    decreases |events|
  {
    if events != [] {
      StepFollows(db, events[0]);
      StepFamily(db, events[0]);
      RunFamily(Step(db, events[0]), events[1..]);
    }
  }

  /** Of any two uses of one refresh token, by refresh or by unlock, at most one succeeds. */
  lemma AcceptedAtMostOnce(db: Database, first: Event, between: seq<Event>, second: Event)
    requires Sane(db) && Family(db) && Accepts(db, first).Some?
    ensures var later := Run(Step(db, first), between);
      Accepts(later, second) != Accepts(db, first)
  {
    var after := Step(db, first);
    StepFollows(db, first);
    StepFamily(db, first);
    AcceptanceSpends(db, first);
    RunFamily(after, between);
    var later := Run(after, between);
    if Accepts(later, second).Some? {
      AcceptanceSpends(later, second);
    }
  }

  /** Refreshing with a consumed token revokes its session. */
  lemma ReplayRevokes(db: Database, raw: Token)
    requires Sane(db) && Spent(db, raw)
    ensures var sid, db' := db.refresh[raw].session, Step(db, Refresh(raw));
      sid in db'.sessions && db'.sessions[sid].revoked && RefreshTx(db, raw).1.Reused?
  {
  }

  lemma RevokedForever(db: Database, after: seq<Event>, sid: Sid)
    requires Sane(db) && sid in db.sessions && db.sessions[sid].revoked
    ensures var end := Run(db, after);
      sid in end.sessions && end.sessions[sid].revoked && LivePrincipal(end, sid, true).None?
  {
    NoResurrection(db, after, sid, true);
    SessionsOnlyTighten(db, after, sid);
  }

  /** Replaying a token that was accepted before revokes its session, and nothing brings it back. */
  lemma ReplayEndsTheSession(db: Database, first: Event, between: seq<Event>, after: seq<Event>)
    requires Sane(db) && Family(db) && Accepts(db, first).Some?
    ensures var raw := Accepts(db, first).value;
      var end := Run(Step(Run(Step(db, first), between), Refresh(raw)), after);
      && raw in db.refresh
      && db.refresh[raw].session in end.sessions
      && end.sessions[db.refresh[raw].session].revoked
      && LivePrincipal(end, db.refresh[raw].session, true).None?
  {
    var raw, once := Accepts(db, first).value, Step(db, first);
    StepFollows(db, first);
    StepFamily(db, first);
    AcceptanceSpends(db, first);
    RunFamily(once, between);
    var before := Run(once, between);
    assert Spent(before, raw) && before.refresh[raw].session == db.refresh[raw].session;
    StepFollows(before, Refresh(raw));
    ReplayRevokes(before, raw);
    RevokedForever(Step(before, Refresh(raw)), after, db.refresh[raw].session);
  }
}
