/** A disabled principal has no live session: not those it had, and not one enrolled for it meanwhile. */
module Disabling {
  import opened Options
  import opened Directories
  import opened Administration
  import opened Sessions
  import opened SessionRuns

  /** Revoked, or of a principal that is switched off. */
  predicate Shut(db: Database, sid: Sid) {
    && sid in db.sessions
    && var s := db.sessions[sid];
       s.principal in db.dir.principals && (s.revoked || !db.dir.principals[s.principal].enabled)
  }

  lemma ShutIsNotLive(db: Database, sid: Sid, allowLocked: bool)
    requires Shut(db, sid)
    ensures LivePrincipal(db, sid, allowLocked).None?
  {
  }

  lemma OnlyAdministrationEditsAccounts(db: Database, e: Event)
    requires Usable(db) && !e.Administer?
    ensures Step(db, e).dir == db.dir
  {
  }

  /** Switching a principal on again revokes the sessions it had. */
  lemma AdministrationKeepsShut(db: Database, op: Operation, sid: Sid)
    requires Shut(db, sid)
    ensures Shut(AdministerTx(db, op), sid)
  {
    OperationSwitches(db.dir, db.clock, op);
  }

  lemma StepKeepsShut(db: Database, e: Event, sid: Sid)
    requires Sane(db) && Shut(db, sid)
    ensures Shut(Step(db, e), sid)
  {
    if e.Administer? {
      AdministrationKeepsShut(db, e.op, sid);
    } else {
      StepFollows(db, e);
      assert Evolves(db, Step(db, e), sid);
      OnlyAdministrationEditsAccounts(db, e);
    }
  }

  lemma {:induction false} RunKeepsShut(db: Database, events: seq<Event>, sid: Sid)
    requires Sane(db) && Shut(db, sid)
    ensures Shut(Run(db, events), sid)
    decreases |events|
  {
    if events != [] {
      StepFollows(db, events[0]);
      StepKeepsShut(db, events[0], sid);
      RunKeepsShut(Step(db, events[0]), events[1..], sid);
    }
  }

  /**
   A sign-in whose principal was disabled after its verification does insert a
   session, but one that never lives and whose access token never resolves, even
   if the principal is switched on again.
   */
  lemma DisabledSignInNeverLives(db: Database, id: Pid, version: nat, events: seq<Event>, allowLocked: bool)
    requires Sane(db) && id in db.dir.principals && !db.dir.principals[id].enabled
    ensures var o := LoginTx(db, id, version);
      && o.credentials.Some?
      && var c, later := o.credentials.value, Run(o.db, events);
      && LivePrincipal(later, c.sid, allowLocked).None?
      && Resolve(later, c.access, allowLocked).None?
  {
    var o := LoginTx(db, id, version);
    EnrolFollows(db, id, version, None);
    RunKeepsShut(o.db, events, o.credentials.value.sid);
    ShutIsNotLive(Run(o.db, events), o.credentials.value.sid, allowLocked);
  }

  /** Disabling a principal ends every session it has, for good. */
  lemma DisablingIsFinal(db: Database, id: Pid, events: seq<Event>, sid: Sid, allowLocked: bool)
    requires Sane(db) && sid in db.sessions && db.sessions[sid].principal == id && id in db.dir.principals
    ensures LivePrincipal(Run(Step(db, Administer(Disable(id))), events), sid, allowLocked).None?
  {
    var off := Step(db, Administer(Disable(id)));
    StepFollows(db, Administer(Disable(id)));
    RunKeepsShut(off, events, sid);
    ShutIsNotLive(Run(off, events), sid, allowLocked);
  }
}
