/** Everything the session authority keeps, from the moment a host creates its tables. */
module SessionInvariants {
  import opened Options
  import opened Directories
  import opened Administration
  import opened Sessions
  import opened SessionRuns
  import RefreshFamily
  import AccessTokens
  import Pairing

  /** The state any run of transactions reaches from a new host. */
  lemma EveryReachableState(clock: real, hostId: nat, dir: Directory, events: seq<Event>)
    ensures var start := Initial(clock, hostId, dir);
      var db := Run(start, events);
      && Sane(db)
      && RefreshFamily.Family(db)
      && AccessTokens.ActiveUnretired(db)
      && Pairing.Bounded(db.proofs)
      && Pairing.Delegated(db.sessions, Pairing.Lineage(start, events, map[]))
  {
    var start := Initial(clock, hostId, dir);
    assert forall sponsor :: Sponsored(start.proofs, sponsor) == {};
    RunFollows(start, events);
    RefreshFamily.RunFamily(start, events);
    AccessTokens.RunKeepsActive(start, events);
    Pairing.RunKeepsBound(start, events);
    Pairing.RunDelegates(start, events, map[]);
  }

  /** The limits reported to a device count down to zero exactly when its absolute end has come. */
  lemma RemainingReachesZeroAtTheEnd(db: Database, sid: Sid)
    requires Sane(db) && sid in db.sessions
    ensures AbsoluteRemaining(db, sid) == 0 <==> db.sessions[sid].expires <= db.clock
    ensures db.clock < db.sessions[sid].expires ==>
              db.sessions[sid].expires - db.clock <= AbsoluteRemaining(db, sid) as real < db.sessions[sid].expires - db.clock + 1.0
  {
  }
}
