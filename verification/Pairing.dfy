/**
 Device pairing over whole runs: a proof is redeemed at most once, a sponsor
 never holds more than twenty, a lock spends them all, and a paired device never
 gains more than any device it descends from.
 */
module Pairing {
  import opened Options
  import opened Directories
  import opened Administration
  import opened Sessions
  import opened SessionRuns

  type Proofs = map<Token, Proof>

  /** A ticket drawn before that is consumed or already swept away. */
  predicate Useless(db: Database, t: Token) {
    t < db.nonce && (t in db.proofs ==> db.proofs[t].consumed)
  }

  /** The ticket a step redeems. */
  function Redeems(db: Database, e: Event): Option<Token>
    requires Usable(db)
  {
    match e
    case Exchange(ticket, host, legacyOk) => if ExchangeTx(db, ticket, host, legacyOk).credentials.Some? then Some(ticket) else None
    case AdmitSocket(ticket, host, path) => if AdmitSocketTx(db, ticket, host, path).access.Some? then Some(ticket) else None
    case _ => None
  }

  predicate Proving(e: Event) {
    e.Lock? || e.IssueProof? || e.Exchange? || e.AdmitSocket? || e.RevokeProof?
  }

  lemma OtherStepsKeepProofs(db: Database, e: Event)
    requires Sane(db) && !Proving(e)
    ensures Step(db, e).proofs == db.proofs
  {
  }

  /** What a step may do to the proof table: consume rows, drop dead ones, add the next nonce. */
  ghost predicate Wears(db: Database, proofs': Proofs) {
    && (forall t :: t in proofs' && t in db.proofs ==>
          proofs'[t] == db.proofs[t].(consumed := proofs'[t].consumed) && (db.proofs[t].consumed ==> proofs'[t].consumed))
    && (forall t :: t in proofs' && t !in db.proofs ==> t == db.nonce)
  }

  lemma StepWears(db: Database, e: Event)
    requires Sane(db)
    ensures Wears(db, Step(db, e).proofs)
  {
    if !Proving(e) { OtherStepsKeepProofs(db, e); }
    else if e.Lock? || e.RevokeProof? { DropsWear(db, e); }
    else { TicketsWear(db, e); }
  }

  lemma DropsWear(db: Database, e: Event)
    requires Sane(db) && (e.Lock? || e.RevokeProof?)
    ensures Wears(db, Step(db, e).proofs)
  {
  }

  lemma TicketsWear(db: Database, e: Event)
    requires Sane(db) && (e.IssueProof? || e.Exchange? || e.AdmitSocket?)
    ensures Wears(db, Step(db, e).proofs)
  {
  }

  lemma StepKeepsUseless(db: Database, e: Event, t: Token)
    requires Sane(db) && Useless(db, t)
    ensures Useless(Step(db, e), t)
  {
    StepFollows(db, e);
    StepWears(db, e);
  }

  lemma {:induction false} RunKeepsUseless(db: Database, events: seq<Event>, t: Token)
    requires Sane(db) && Useless(db, t)
    ensures Sane(Run(db, events)) && Useless(Run(db, events), t)
    decreases |events|
  {
    if events != [] {
      StepFollows(db, events[0]);
      StepKeepsUseless(db, events[0], t);
      RunKeepsUseless(Step(db, events[0]), events[1..], t);
    }
  }

  lemma RedemptionSpends(db: Database, e: Event)
    requires Sane(db) && Redeems(db, e).Some?
    ensures !Useless(db, Redeems(db, e).value) && Useless(Step(db, e), Redeems(db, e).value)
  {
    var t := Redeems(db, e).value;
    var c := ConsumeTx(db, t, if e.Exchange? then Pair else Socket, e.host, if e.Exchange? then "" else e.path);
    assert t in c.value.db.proofs && c.value.db.proofs[t].consumed;
  }

  // ------------------------------------------------- one use, and none after a lock

  /** A ticket is redeemed at most once in any run, although consumed rows are swept away. */
  lemma RedeemedAtMostOnce(db: Database, first: Event, between: seq<Event>, second: Event)
    requires Sane(db) && Redeems(db, first).Some?
    ensures Redeems(Run(Step(db, first), between), second) != Redeems(db, first)
  {
    var t, later := Redeems(db, first).value, Run(Step(db, first), between);
    StepFollows(db, first);
    RedemptionSpends(db, first);
    RunKeepsUseless(Step(db, first), between, t);
    if Redeems(later, second).Some? { RedemptionSpends(later, second); }
  }

  /** No proof a session sponsored before it was locked is redeemable afterwards, even once it is unlocked. */
  lemma LockSpendsProofs(db: Database, sid: Sid, id: Pid, t: Token, after: seq<Event>, use: Event)
    requires Sane(db) && LockTx(db, sid, id).Some?
    requires t in db.proofs && db.proofs[t].sponsor == sid
    ensures Redeems(Run(Step(db, Lock(sid, id)), after), use) != Some(t)
  {
    var locked := Step(db, Lock(sid, id));
    StepFollows(db, Lock(sid, id));
    RunKeepsUseless(locked, after, t);
    var later := Run(locked, after);
    if Redeems(later, use).Some? { RedemptionSpends(later, use); }
  }

  // -------------------------------------------------------- bounded storage

  ghost predicate Bounded(proofs: Proofs) {
    forall sponsor :: |Sponsored(proofs, sponsor)| <= MAX_PENDING
  }

  lemma SubsetSize(a: set<Token>, b: set<Token>)
    requires a <= b
    ensures |a| <= |b|
    decreases b
  {
    if b != {} {
      var x :| x in b;
      SubsetSize(a - {x}, b - {x});
    }
  }

  /** Consuming or dropping rows never adds to anyone's count. */
  lemma WearingKeepsBound(proofs: Proofs, proofs': Proofs)
    requires Bounded(proofs)
    requires forall t :: t in proofs' ==> t in proofs && proofs'[t].sponsor == proofs[t].sponsor
    ensures Bounded(proofs')
  {
    forall sponsor
      ensures |Sponsored(proofs', sponsor)| <= MAX_PENDING
    {
      SubsetSize(Sponsored(proofs', sponsor), Sponsored(proofs, sponsor));
    }
  }

  lemma AddingKeepsBound(proofs: Proofs, t: Token, proof: Proof)
    requires Bounded(proofs) && t !in proofs && |Sponsored(proofs, proof.sponsor)| < MAX_PENDING
    ensures Bounded(proofs[t := proof])
  {
    var proofs' := proofs[t := proof];
    forall sponsor
      ensures |Sponsored(proofs', sponsor)| <= MAX_PENDING
    {
      if sponsor == proof.sponsor {
        assert Sponsored(proofs', sponsor) == Sponsored(proofs, sponsor) + {t};
      } else {
        assert Sponsored(proofs', sponsor) == Sponsored(proofs, sponsor);
      }
    }
  }

  lemma StepKeepsBound(db: Database, e: Event)
    requires Sane(db) && Bounded(db.proofs)
    ensures Bounded(Step(db, e).proofs)
  {
    StepWears(db, e);
    if e.IssueProof? && IssueProofTx(db, e.sid, e.id, e.version, e.purpose, e.scopes, e.path, e.legacy).Some? {
      var kept := PendingProofs(db);
      WearingKeepsBound(db.proofs, kept);
      AddingKeepsBound(kept, db.nonce, Step(db, e).proofs[db.nonce]);
    } else {
      NoNewProof(db, e);
      WearingKeepsBound(db.proofs, Step(db, e).proofs);
    }
  }

  lemma NoNewProof(db: Database, e: Event)
    requires Sane(db)
    requires e.IssueProof? ==> IssueProofTx(db, e.sid, e.id, e.version, e.purpose, e.scopes, e.path, e.legacy).None?
    ensures db.nonce !in Step(db, e).proofs
  {
  }

  /** A sponsor never has more than twenty proof rows, in any state a run can reach. */
  lemma {:induction false} RunKeepsBound(db: Database, events: seq<Event>)
    requires Sane(db) && Bounded(db.proofs)
    ensures Bounded(Run(db, events).proofs)
    decreases |events|
  {
    if events != [] {
      StepFollows(db, events[0]);
      StepKeepsBound(db, events[0]);
      RunKeepsBound(Step(db, events[0]), events[1..]);
    }
  }

  // -------------------------------------------------------------- delegation

  type Parents = map<Sid, Sid>

  /** Records the sponsor of the session an exchange creates. */
  function Begets(db: Database, e: Event, parents: Parents): Parents
    requires Usable(db)
  {
    if e.Exchange? && ExchangeTx(db, e.ticket, e.host, e.legacyOk).credentials.Some?
    then parents[db.nonce := db.proofs[e.ticket].sponsor]
    else parents
  }

  function Lineage(db: Database, events: seq<Event>, parents: Parents): Parents
    requires Usable(db)
    decreases |events|
  {
    if events == [] then parents else Lineage(Step(db, events[0]), events[1..], Begets(db, events[0], parents))
  }

  /** `c` owns what `p` owns, and was granted no more than `p` if `p` was itself paired. */
  predicate Within(c: Session, p: Session) {
    && c.principal == p.principal
    && c.grant.Some?
    && (p.grant.Some? ==> c.grant.value <= p.grant.value)
  }

  ghost predicate Delegated(sessions: map<Sid, Session>, parents: Parents) {
    && (forall c :: c in parents ==>
          c in sessions && parents[c] in sessions && parents[c] < c && Within(sessions[c], sessions[parents[c]]))
    && (forall sid :: sid in sessions && sid !in parents ==> sessions[sid].grant.None?)
  }

  /** An exchange creates a session within the live scopes of its sponsor. */
  lemma ExchangeDelegates(db: Database, ticket: Token, host: nat, legacyOk: bool)
    requires Sane(db) && ExchangeTx(db, ticket, host, legacyOk).credentials.Some?
    ensures var db', sponsor := ExchangeTx(db, ticket, host, legacyOk).db, db.proofs[ticket].sponsor;
      && sponsor in db.sessions
      && db'.sessions.Keys == db.sessions.Keys + {db.nonce}
      && Within(db'.sessions[db.nonce], db.sessions[sponsor])
  {
  }

  lemma OnlyEnrolmentsAdd(db: Database, e: Event)
    requires Sane(db) && !e.Login? && !e.Exchange?
    ensures Step(db, e).sessions.Keys == db.sessions.Keys
  {
  }

  type SessionTable = map<Sid, Session>

  ghost predicate SameOwners(ss: SessionTable, ss': SessionTable) {
    forall sid :: sid in ss ==> sid in ss' && ss'[sid].principal == ss[sid].principal && ss'[sid].grant == ss[sid].grant
  }

  lemma FollowsSameOwners(db: Database, db': Database)
    requires Follows(db, db')
    ensures SameOwners(db.sessions, db'.sessions)
  {
    assert forall sid :: sid in db.sessions ==> Evolves(db, db', sid);
  }

  /** Surviving sessions keep their place; sessions of no sponsor carry no grant. */
  lemma DelegationSurvives(ss: SessionTable, ss': SessionTable, parents: Parents)
    requires Delegated(ss, parents) && SameOwners(ss, ss')
    requires forall sid :: sid in ss' && sid !in ss ==> ss'[sid].grant.None?
    ensures Delegated(ss', parents)
  {
  }

  lemma DelegationGrows(ss: SessionTable, ss': SessionTable, parents: Parents, child: Sid, sponsor: Sid)
    requires Delegated(ss, parents) && SameOwners(ss, ss')
    requires ss'.Keys == ss.Keys + {child} && child !in ss
    requires sponsor in ss && sponsor < child && Within(ss'[child], ss[sponsor])
    ensures Delegated(ss', parents[child := sponsor])
  {
  }

  lemma LoginOwnsItself(db: Database, id: Pid, version: nat)
    requires Sane(db)
    ensures var ss' := LoginTx(db, id, version).db.sessions;
      forall sid :: sid in ss' && sid !in db.sessions ==> ss'[sid].grant.None?
  {
  }

  lemma StepDelegates(db: Database, e: Event, parents: Parents)
    requires Sane(db) && Delegated(db.sessions, parents)
    ensures Delegated(Step(db, e).sessions, Begets(db, e, parents))
  {
    StepFollows(db, e);
    FollowsSameOwners(db, Step(db, e));
    if e.Exchange? && ExchangeTx(db, e.ticket, e.host, e.legacyOk).credentials.Some? {
      ExchangeDelegates(db, e.ticket, e.host, e.legacyOk);
      DelegationGrows(db.sessions, Step(db, e).sessions, parents, db.nonce, db.proofs[e.ticket].sponsor);
    } else {
      if e.Login? { LoginOwnsItself(db, e.id, e.version); }
      else if !e.Exchange? { OnlyEnrolmentsAdd(db, e); }
      DelegationSurvives(db.sessions, Step(db, e).sessions, parents);
    }
  }

  lemma {:induction false} RunDelegates(db: Database, events: seq<Event>, parents: Parents)
    requires Sane(db) && Delegated(db.sessions, parents)
    ensures Delegated(Run(db, events).sessions, Lineage(db, events, parents))
    decreases |events|
  {
    if events != [] {
      StepFollows(db, events[0]);
      StepDelegates(db, events[0], parents);
      RunDelegates(Step(db, events[0]), events[1..], Begets(db, events[0], parents));
    }
  }

  ghost predicate Ancestor(parents: Parents, a: Sid, d: Sid)
    decreases d
  {
    d in parents && parents[d] < d && (parents[d] == a || Ancestor(parents, a, parents[d]))
  }

  lemma {:induction false} AncestorsBound(sessions: map<Sid, Session>, parents: Parents, a: Sid, d: Sid)
    requires Delegated(sessions, parents) && Ancestor(parents, a, d)
    ensures a in sessions && d in sessions && Within(sessions[d], sessions[a])
    decreases d
  {
    if parents[d] != a {
      AncestorsBound(sessions, parents, a, parents[d]);
    }
  }

  /**
   Along any chain of pairings, however roles and groups change meanwhile, a
   descendant has its ancestor's principal, a grant within the grant of every
   paired ancestor, and live scopes within its own grant and all of theirs.
   */
  lemma DelegationOnlyShrinks(db: Database, events: seq<Event>, parents: Parents, a: Sid, d: Sid, allowLocked: bool)
    requires Sane(db) && Delegated(db.sessions, parents)
    requires Ancestor(Lineage(db, events, parents), a, d)
    ensures var later := Run(db, events);
      && a in later.sessions && d in later.sessions
      && later.sessions[d].principal == later.sessions[a].principal
      && later.sessions[d].grant.Some?
      && (later.sessions[a].grant.Some? ==> later.sessions[d].grant.value <= later.sessions[a].grant.value)
      && var live := LivePrincipal(later, d, allowLocked);
         live.Some? ==>
           && live.value.id == later.sessions[a].principal
           && live.value.scopes <= later.sessions[d].grant.value
           && (later.sessions[a].grant.Some? ==> live.value.scopes <= later.sessions[a].grant.value)
  {
    RunDelegates(db, events, parents);
    AncestorsBound(Run(db, events).sessions, Lineage(db, events, parents), a, d);
  }
}
