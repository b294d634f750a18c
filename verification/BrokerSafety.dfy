/**
 At-most-once execution and what an execution is answerable to, over every
 interleaving of the broker's stretches, restarts included.
 */
module BrokerSafety {
  import opened Options
  import opened PermitProtocol

  /** Statuses an action never leaves for one that could still execute. */
  predicate Terminal(status: Status) {
    status != NeedsUserStatus && status != ApprovedOnce && status != Permitted
  }

  ghost predicate RowSound(id: Id, row: Row) {
    && row.envelope.id == id
    && (row.permit.Some? ==> row.status == Permitted || Terminal(row.status)) && (row.status == Permitted ==> row.permit.Some?)
    && (row.envelope.effect.Challenge? ==> row.status == Blocked || row.status == Invalidated)
  }

  /** A review is of an action not yet recorded; an operation is of one already consumed. */
  ghost predicate HoldSound(b: Broker, id: Id, hold: Hold) {
    match hold
    case Reviewing(e, reviewer) => e.id == id && id !in b.rows && !NeedsHuman(e)
    case Operating(row) =>
      && row.status == Executing && row.permit.None? && !row.envelope.effect.Challenge?
      && id in b.rows && b.rows[id].envelope == row.envelope && Terminal(b.rows[id].status)
  }

  ghost predicate Inv(b: Broker) {
    && (forall id :: id in b.rows ==> RowSound(id, b.rows[id]) && PermitDrawn(b.nonce, b.rows[id]))
    && (forall id :: id in b.locks ==> HoldSound(b, id, b.locks[id]))
    && (forall r :: r in b.rules ==> r < b.nonce)
  }

  predicate PermitDrawn(nonce: nat, row: Row) {
    row.permit.Some? ==> row.permit.value < nonce
  }

  /** Statuses from which an action may still come to execute without another decision. */
  predicate Executable(status: Status) {
    status == ApprovedOnce || status == Permitted
  }

  /** A row as a step may create it: a permit is the next nonce and short-lived, and no consequential action is permitted outright. */
  predicate Creates(b: Broker, row: Row) {
    && (row.permit.Some? ==> row.permit.value == b.nonce && row.expires <= b.clock + PERMIT_TTL)
    && (NeedsHuman(row.envelope) ==> !Executable(row.status))
  }

  /**
   A row as a step may change it: same action, no way back from a terminal status,
   a permit kept as it was or newly drawn, and no approval unless the step is one.
   */
  predicate Changes(b: Broker, row: Row, row': Row, approving: bool := false) {
    && row'.envelope == row.envelope
    && (Terminal(row.status) ==> Terminal(row'.status))
    && (row'.permit.Some? ==>
          || (row'.permit == row.permit && row'.expires == row.expires)
          || (row'.permit.value == b.nonce && row'.expires <= b.clock + PERMIT_TTL))
    && (NeedsHuman(row.envelope) && Executable(row'.status) ==>
          Executable(row.status) || (approving && row.status == NeedsUserStatus && row'.status == ApprovedOnce))
  }

  ghost predicate Follows(b: Broker, b': Broker, approving: bool := false) {
    && b.clock <= b'.clock && b.nonce <= b'.nonce
    && (forall id :: id in b.rows ==> id in b'.rows && Changes(b, b.rows[id], b'.rows[id], approving))
    && (forall id :: id in b'.rows && id !in b.rows ==> Creates(b, b'.rows[id]))
  }

  /** No remembered rule allows a sensitive or unknown effect. */
  ghost predicate RulesBounded(b: Broker) {
    forall r :: r in b.rules && b.rules[r].decision == Allow ==> !Consequential(b.rules[r].scope.effect)
  }

  ghost predicate Kept(b: Broker, b': Broker, approving: bool := false) {
    Inv(b') && Follows(b, b', approving) && (RulesBounded(b) ==> RulesBounded(b'))
  }

  // ------------------------------------------------------- the shapes of a step

  lemma SameRows(b: Broker, b': Broker)
    requires Inv(b) && b'.rows == b.rows && b'.locks == b.locks
    requires b.clock <= b'.clock && b.nonce <= b'.nonce
    requires forall r :: r in b'.rules ==> r < b'.nonce
    requires RulesBounded(b) ==> RulesBounded(b')
    ensures Kept(b, b')
  {
  }

  ghost predicate Writable(b: Broker, id: Id, row: Row, approving: bool := false) {
    && RowSound(id, row)
    && (id in b.locks ==> b.locks[id].Operating? && Terminal(row.status))
    && (if id in b.rows then Changes(b, b.rows[id], row, approving) else Creates(b, row))
  }

  /** One row is written while nobody is reviewing that action. */
  lemma OneRow(b: Broker, b': Broker, id: Id, row: Row, approving: bool := false)
    requires Inv(b) && b'.rows == b.rows[id := row] && b'.locks == b.locks && b'.rules == b.rules
    requires b'.clock == b.clock && b.nonce <= b'.nonce && PermitDrawn(b'.nonce, row)
    requires Writable(b, id, row, approving)
    ensures Kept(b, b', approving)
  {
    forall other | other in b'.locks
      ensures HoldSound(b', other, b'.locks[other])
    {
      assert HoldSound(b, other, b.locks[other]);
    }
  }

  lemma HoldStays(b: Broker, b': Broker, id: Id)
    requires id in b.locks && HoldSound(b, id, b.locks[id])
    requires b'.rows.Keys == b.rows.Keys
    requires id in b.rows ==> b'.rows[id] == b.rows[id] || b'.rows[id] == b.rows[id].(status := Invalidated)
    ensures HoldSound(b', id, b.locks[id])
  {
  }

  /** Every row is rewritten at once, none gaining a permit or an approval. */
  lemma AllRows(b: Broker, b': Broker)
    requires Inv(b) && b'.rows.Keys == b.rows.Keys && b'.rules == b.rules
    requires b'.clock == b.clock && b'.nonce == b.nonce
    requires b'.locks == b.locks || b'.locks == map[]
    requires forall id :: id in b.rows ==> b'.rows[id] == b.rows[id] || b'.rows[id] == b.rows[id].(status := Invalidated)
    ensures Kept(b, b')
  {
    forall id | id in b'.locks
      ensures HoldSound(b', id, b'.locks[id])
    {
      HoldStays(b, b', id);
    }
    forall id | id in b.rows
      ensures RowSound(id, b'.rows[id]) && PermitDrawn(b'.nonce, b'.rows[id]) && Changes(b, b.rows[id], b'.rows[id])
    {
      assert RowSound(id, b.rows[id]) && PermitDrawn(b.nonce, b.rows[id]);
    }
  }

  lemma ConcludeKept(b: Broker, e: Envelope, verdict: Verdict, source: DecidedBy, reviewer: Option<Reviewer>, stillValid: bool)
    requires Inv(b) && e.id !in b.rows && e.id !in b.locks && !e.effect.Challenge?
    requires NeedsHuman(e) ==> verdict.decision == NeedsUser
    ensures Kept(b, Conclude(b, e, verdict, source, reviewer, stillValid).after)
  {
    var b' := Conclude(b, e, verdict, source, reviewer, stillValid).after;
    OneRow(b, b', e.id, b'.rows[e.id]);
  }

  lemma RevisitKept(b: Broker, e: Envelope)
    requires Inv(b) && e.id in b.rows && b.rows[e.id].envelope == e && e.id !in b.locks
    ensures Kept(b, Revisit(b, b.rows[e.id]).after)
  {
    var b' := Revisit(b, b.rows[e.id]).after;
    if b'.rows != b.rows { OneRow(b, b', e.id, b'.rows[e.id]); } else { SameRows(b, b'); }
  }

  lemma RefuseKept(b: Broker, e: Envelope)
    requires Inv(b) && e.id !in b.locks && (e.id in b.rows ==> b.rows[e.id].envelope == e)
    ensures Kept(b, Refuse(b, e, Blocked))
  {
    OneRow(b, Refuse(b, e, Blocked), e.id, Refuse(b, e, Blocked).rows[e.id]);
  }

  lemma AuthorizeNewKept(b: Broker, e: Envelope, valid: bool, denied: bool, consent: bool, stillValid: bool)
    requires Inv(b) && e.id !in b.locks && e.id !in b.rows && valid && !denied && !e.effect.Challenge?
    ensures Kept(b, Authorize(b, e, valid, denied, consent, stillValid).after)
  {
    if SomeBlock(b, e) {
      RefuseKept(b, e);
    } else if HostOpinion(b, e, consent).Some? {
      var opinion := HostOpinion(b, e, consent).value;
      ConcludeKept(b, e, opinion.verdict, opinion.source, None, stillValid);
    } else {
      Taken(b, Authorize(b, e, valid, denied, consent, stillValid).after, e.id, Reviewing(e, b.reviewer.value));
    }
  }

  lemma AuthorizeKept(b: Broker, e: Envelope, valid: bool, denied: bool, consent: bool, stillValid: bool)
    requires Inv(b)
    ensures Kept(b, Authorize(b, e, valid, denied, consent, stillValid).after)
  {
    if e.id in b.locks || (e.id in b.rows && b.rows[e.id].envelope != e) {
      SameRows(b, b);
    } else if !valid || denied || e.effect.Challenge? {
      RefuseKept(b, e);
    } else if e.id in b.rows {
      RevisitKept(b, e);
    } else {
      AuthorizeNewKept(b, e, valid, denied, consent, stillValid);
    }
  }

  lemma Taken(b: Broker, b': Broker, id: Id, hold: Hold)
    requires Inv(b) && b' == b.(locks := b.locks[id := hold]) && HoldSound(b, id, hold)
    ensures Kept(b, b')
  {
  }

  lemma Released(b: Broker, id: Id)
    requires Inv(b)
    ensures Kept(b, b.(locks := b.locks - {id}))
  {
  }

  /** A lock is dropped first, then a row written. */
  lemma AfterRelease(a: Broker, b: Broker, c: Broker)
    requires Kept(b, c) && b == a.(locks := b.locks)
    ensures Kept(a, c)
  {
    assert forall row, row' :: Changes(b, row, row') ==> Changes(a, row, row');
  }

  lemma ResumeKept(b: Broker, id: Id, verdict: Option<Verdict>, stillValid: bool)
    requires Inv(b)
    ensures Kept(b, Resume(b, id, verdict, stillValid).after)
  {
    if id in b.locks && b.locks[id].Reviewing? {
      assert HoldSound(b, id, b.locks[id]);
      var hold, b1 := b.locks[id], b.(locks := b.locks - {id});
      Released(b, id);
      if VerdictUsable(b1, hold.reviewer, verdict) {
        ConcludeKept(b1, hold.envelope, verdict.value, Model, Some(hold.reviewer), stillValid);
      } else {
        ConcludeKept(b1, hold.envelope, Asking(b1), Unset, None, stillValid);
      }
      AfterRelease(b, b1, Resume(b, id, verdict, stillValid).after);
    } else {
      SameRows(b, b);
    }
  }

  lemma DecideKept(b: Broker, id: Id, principal: string, approve: bool)
    requires Inv(b)
    ensures Kept(b, Decide(b, id, principal, approve).after, true)
  {
    var b' := Decide(b, id, principal, approve).after;
    if Decide(b, id, principal, approve).reply.Done? {
      assert RowSound(id, b.rows[id]);
      OneRow(b, b', id, b'.rows[id], true);
    } else {
      SameRows(b, b');
    }
  }

  lemma InvalidateKept(b: Broker, grant: string, session: string)
    requires Inv(b)
    ensures Kept(b, Invalidate(b, grant, session))
  {
    AllRows(b, Invalidate(b, grant, session));
  }

  lemma RestartKept(b: Broker)
    requires Inv(b)
    ensures Kept(b, Restart(b))
  {
    AllRows(b, Restart(b));
  }

  lemma BeginExecuteKept(b: Broker, e: Envelope, permit: nat, valid: bool)
    requires Inv(b)
    ensures Kept(b, BeginExecute(b, e, permit, valid).after)
  {
    var r := BeginExecute(b, e, permit, valid);
    if r.after != b {
      assert RowSound(e.id, b.rows[e.id]);
      var b1 := Put(b, e.id, r.after.rows[e.id]);
      OneRow(b, b1, e.id, r.after.rows[e.id]);
      if r.reply.Pending? {
        Taken(b1, r.after, e.id, Operating(r.after.rows[e.id]));
        LockOnly(b, b1, r.after);
      }
    } else {
      SameRows(b, b);
    }
  }

  /** Taking or dropping a lock after a row was written changes nothing about the rows. */
  lemma LockOnly(b: Broker, b1: Broker, b2: Broker)
    requires Kept(b, b1) && Inv(b2) && b2 == b1.(locks := b2.locks)
    ensures Kept(b, b2)
  {
  }

  lemma ConsumeExternalKept(b: Broker, e: Envelope, permit: nat, valid: bool)
    requires Inv(b)
    ensures Kept(b, ConsumeExternal(b, e, permit, valid).after)
  {
    var b' := ConsumeExternal(b, e, permit, valid).after;
    if b' != b {
      assert RowSound(e.id, b.rows[e.id]);
      OneRow(b, b', e.id, b'.rows[e.id]);
    } else {
      SameRows(b, b);
    }
  }

  lemma EndExecuteKept(b: Broker, id: Id, success: bool)
    requires Inv(b)
    ensures Kept(b, EndExecute(b, id, success).after)
  {
    if id in b.locks && b.locks[id].Operating? {
      assert HoldSound(b, id, b.locks[id]) && RowSound(id, b.rows[id]);
      var row := b.locks[id].row.(status := if success then Completed else UnknownOutcome);
      var b1 := Put(b, id, row);
      OneRow(b, b1, id, row);
      Released(b1, id);
      LockOnly(b, b1, b1.(locks := b1.locks - {id}));
    } else {
      SameRows(b, b);
    }
  }

  lemma CompleteExternalKept(b: Broker, id: Id, success: bool)
    requires Inv(b)
    ensures Kept(b, CompleteExternal(b, id, success))
  {
    var b' := CompleteExternal(b, id, success);
    if b' != b {
      assert RowSound(id, b.rows[id]);
      if id in b.locks { assert HoldSound(b, id, b.locks[id]); }
      OneRow(b, b', id, b'.rows[id]);
    } else {
      SameRows(b, b);
    }
  }

  lemma StepKept(b: Broker, ev: Event)
    requires Inv(b)
    ensures Kept(b, Step(b, ev), ev.DoDecide?)
  {
    match ev
    case DoAuthorize(e, valid, denied, consent, stillValid) => AuthorizeKept(b, e, valid, denied, consent, stillValid);
    case DoResume(id, verdict, stillValid) => ResumeKept(b, id, verdict, stillValid);
    case DoDecide(id, principal, approve) => DecideKept(b, id, principal, approve);
    case DoInvalidate(grant, session) => InvalidateKept(b, grant, session);
    case DoBeginExecute(e, permit, valid) => BeginExecuteKept(b, e, permit, valid);
    case DoEndExecute(id, success) => EndExecuteKept(b, id, success);
    case DoConsumeExternal(e, permit, valid) => ConsumeExternalKept(b, e, permit, valid);
    case DoCompleteExternal(id, success) => CompleteExternalKept(b, id, success);
    case DoRestart => RestartKept(b);
    case _ => QuietStepKept(b, ev);
  }

  lemma QuietStepKept(b: Broker, ev: Event)
    requires Inv(b) && (ev.Advance? || ev.DoAddRule? || ev.DoEditRule? || ev.RevokeRule? || ev.SetReviewer?)
    ensures Kept(b, Step(b, ev), false)
  {
    SameRows(b, Step(b, ev));
  }

  // ------------------------------------------------------------- main results

  ghost predicate Forward(b: Broker, b': Broker) {
    && b.clock <= b'.clock && b.nonce <= b'.nonce
    && forall id :: id in b.rows ==>
         && id in b'.rows && b'.rows[id].envelope == b.rows[id].envelope
         && (Terminal(b.rows[id].status) ==> Terminal(b'.rows[id].status))
  }

  lemma KeptForward(b: Broker, b': Broker)
    requires Kept(b, b', true)
    ensures Forward(b, b')
  {
  }

  /** Over any run the recorded envelope of an action never changes, and a terminal status is never left. */
  lemma {:induction false} RunForward(b: Broker, events: seq<Event>)
    requires Inv(b)
    ensures Inv(Run(b, events)) && Forward(b, Run(b, events))
    decreases |events|
  {
    if events != [] {
      var b1 := Step(b, events[0]);
      StepKept(b, events[0]);
      KeptForward(b, b1);
      RunForward(b1, events[1..]);
      assert forall id :: id in b.rows ==> id in b1.rows;
    }
  }

  /** Starting takes a permitted row and leaves it executing. */
  lemma StartingConsumes(b: Broker, ev: Event)
    requires Starts(b, ev).Some?
    ensures var id, b' := Starts(b, ev).value, Step(b, ev);
      && id in b.rows && b.rows[id].status == Permitted && b.clock < b.rows[id].expires && b.rows[id].permit.Some?
      && b'.rows[id] == Consumed(b.rows[id])
  {
  }

  /** In every interleaving each action enters execution at most once. */
  lemma StartedAtMostOnce(b: Broker, first: Event, between: seq<Event>, second: Event)
    requires Inv(b) && Starts(b, first).Some?
    ensures Starts(Run(Step(b, first), between), second) != Starts(b, first)
  {
    StepKept(b, first);
    StartingConsumes(b, first);
    RunForward(Step(b, first), between);
    var later := Run(Step(b, first), between);
    if Starts(later, second).Some? { StartingConsumes(later, second); }
  }

  /** The envelope a start carries; its fingerprint is the row's. */
  function StartedEnvelope(ev: Event): Option<Envelope> {
    match ev
    case DoBeginExecute(e, _, _) => Some(e)
    case DoConsumeExternal(e, _, _) => Some(e)
    case _ => None
  }

  /** What executes is exactly what was first recorded under that id, and it is never a challenge. */
  lemma ExecutesWhatWasRecorded(b: Broker, events: seq<Event>, ev: Event)
    requires Inv(b) && Starts(Run(b, events), ev).Some?
    ensures var id := Starts(Run(b, events), ev).value;
      && StartedEnvelope(ev).Some? && !StartedEnvelope(ev).value.effect.Challenge?
      && (id in b.rows ==> StartedEnvelope(ev).value == b.rows[id].envelope)
  {
    RunForward(b, events);
    StartingConsumes(Run(b, events), ev);
    var later, id := Run(b, events), Starts(Run(b, events), ev).value;
    assert RowSound(id, later.rows[id]);
  }

  // --------------------------------------------------- permits and their age

  /** Permit `p`, if the row still carries it, expires by `t`. */
  ghost predicate PermitBy(b: Broker, id: Id, p: nat, t: Instant) {
    p < b.nonce && (id in b.rows && b.rows[id].permit == Some(p) ==> b.rows[id].expires <= t)
  }

  lemma PermitByKept(b: Broker, b': Broker, id: Id, p: nat, t: Instant)
    requires Inv(b) && Kept(b, b', true) && PermitBy(b, id, p, t)
    ensures PermitBy(b', id, p, t)
  {
  }

  lemma {:induction false} RunPermitBy(b: Broker, events: seq<Event>, id: Id, p: nat, t: Instant)
    requires Inv(b) && PermitBy(b, id, p, t)
    ensures PermitBy(Run(b, events), id, p, t)
    decreases |events|
  {
    if events != [] {
      StepKept(b, events[0]);
      PermitByKept(b, Step(b, events[0]), id, p, t);
      RunPermitBy(Step(b, events[0]), events[1..], id, p, t);
    }
  }

  /** The row carries a permit that no row carried before. */
  predicate IssuesPermit(b: Broker, b': Broker, id: Id) {
    && id in b'.rows && b'.rows[id].permit == Some(b.nonce) && b.nonce < b'.nonce
  }

  lemma IssuedForFifteenSeconds(b: Broker, b': Broker, id: Id)
    requires Inv(b) && Kept(b, b', true) && IssuesPermit(b, b', id)
    ensures PermitBy(b', id, b.nonce, b.clock + PERMIT_TTL)
  {
    if id in b.rows { assert PermitDrawn(b.nonce, b.rows[id]); }
  }

  /** Some step of the run gave `id` the permit `p`, at a time later than `t`. */
  ghost predicate IssuedAfter(b: Broker, events: seq<Event>, id: Id, p: nat, t: Instant)
    decreases |events|
  {
    events != [] &&
    ((b.nonce == p && IssuesPermit(b, Step(b, events[0]), id) && t < b.clock)
     || IssuedAfter(Step(b, events[0]), events[1..], id, p, t))
  }

  predicate Carries(b: Broker, id: Id, p: nat) {
    id in b.rows && b.rows[id].permit == Some(p)
  }

  lemma NewlyCarried(b: Broker, b': Broker, id: Id, p: nat)
    requires Inv(b) && Kept(b, b', true) && Carries(b', id, p) && !Carries(b, id, p)
    ensures p == b.nonce && IssuesPermit(b, b', id)
  {
    assert PermitDrawn(b'.nonce, b'.rows[id]);
  }

  lemma {:induction false} PermitOrigin(b: Broker, events: seq<Event>, id: Id, p: nat, t: Instant)
    requires Inv(b) && Carries(Run(b, events), id, p) && t + PERMIT_TTL < Run(b, events).rows[id].expires
    ensures Carries(b, id, p) || IssuedAfter(b, events, id, p, t)
    decreases |events|
  {
    if events != [] {
      var b1 := Step(b, events[0]);
      StepKept(b, events[0]);
      PermitOrigin(b1, events[1..], id, p, t);
      if Carries(b1, id, p) && !Carries(b, id, p) {
        NewlyCarried(b, b1, id, p);
        IssuedForFifteenSeconds(b, b1, id);
        RunPermitBy(b1, events[1..], id, p, b.clock + PERMIT_TTL);
      }
    }
  }

  /** Every execution begins less than fifteen seconds after the permit it consumes was issued to it. */
  lemma StartsWithinFifteenSeconds(clock: Instant, events: seq<Event>, start: Event)
    requires Starts(Run(Initial(clock), events), start).Some?
    ensures var later, id := Run(Initial(clock), events), Starts(Run(Initial(clock), events), start).value;
      && id in later.rows && later.rows[id].permit.Some?
      && IssuedAfter(Initial(clock), events, id, later.rows[id].permit.value, later.clock - PERMIT_TTL)
  {
    var later, id := Run(Initial(clock), events), Starts(Run(Initial(clock), events), start).value;
    StartingConsumes(later, start);
    PermitOrigin(Initial(clock), events, id, later.rows[id].permit.value, later.clock - PERMIT_TTL);
  }

  /** Permit `p` is on no row that could still execute. */
  ghost predicate Void(b: Broker, p: nat) {
    p < b.nonce && forall id :: id in b.rows && b.rows[id].permit == Some(p) ==> Terminal(b.rows[id].status)
  }

  lemma VoidKept(b: Broker, b': Broker, p: nat)
    requires Inv(b) && Kept(b, b', true) && Void(b, p)
    ensures Void(b', p)
  {
  }

  lemma {:induction false} RunVoid(b: Broker, events: seq<Event>, p: nat)
    requires Inv(b) && Void(b, p)
    ensures Void(Run(b, events), p)
    decreases |events|
  {
    if events != [] {
      StepKept(b, events[0]);
      VoidKept(b, Step(b, events[0]), p);
      RunVoid(Step(b, events[0]), events[1..], p);
    }
  }

  /** No permit issued before a host restart is honoured after it, and nothing in flight is completed. */
  lemma RestartVoidsPermits(b: Broker, p: nat, after: seq<Event>, e: Envelope, valid: bool)
    requires Inv(b) && p < b.nonce
    ensures !PermitHonoured(Run(Restart(b), after), e, p, valid)
    ensures forall id :: id in Restart(b).rows ==> Restart(b).rows[id].status != Permitted && Restart(b).rows[id].status != Executing
  {
    RestartKept(b);
    assert forall id :: id in b.rows ==> RowSound(id, b.rows[id]);
    assert Void(Restart(b), p);
    RunVoid(Restart(b), after, p);
  }

  // ----------------------------------------------------------- human approval

  /** The step is a human approving the pending action. */
  predicate Approves(b: Broker, ev: Event, id: Id) {
    ev.DoDecide? && ev.id == id && ev.approve && Decide(b, ev.id, ev.principal, ev.approve).reply.Done?
  }

  /** Some step of the run approved `id`. */
  ghost predicate Approved(b: Broker, events: seq<Event>, id: Id)
    decreases |events|
  {
    events != [] && (Approves(b, events[0], id) || Approved(Step(b, events[0]), events[1..], id))
  }

  lemma MadeExecutable(b: Broker, b': Broker, approving: bool, id: Id)
    requires Kept(b, b', approving) && id in b'.rows
    requires NeedsHuman(b'.rows[id].envelope) && Executable(b'.rows[id].status)
    ensures id in b.rows
    ensures Executable(b.rows[id].status)
            || (approving && b.rows[id].status == NeedsUserStatus && b'.rows[id].status == ApprovedOnce)
  {
  }

  lemma DecisionApproves(b: Broker, of: Id, principal: string, approve: bool, id: Id)
    requires id in b.rows && b.rows[id].status == NeedsUserStatus
    requires Decide(b, of, principal, approve).after.rows[id].status == ApprovedOnce
    ensures Approves(b, DoDecide(of, principal, approve), id)
  {
  }

  /** Only an approving decision makes a consequential action executable. */
  lemma BecomesExecutable(b: Broker, ev: Event, id: Id)
    requires Inv(b) && id in Step(b, ev).rows
    requires NeedsHuman(Step(b, ev).rows[id].envelope) && Executable(Step(b, ev).rows[id].status)
    ensures Approves(b, ev, id) || (id in b.rows && Executable(b.rows[id].status))
  {
    StepKept(b, ev);
    MadeExecutable(b, Step(b, ev), ev.DoDecide?, id);
    if !Executable(b.rows[id].status) { DecisionApproves(b, ev.id, ev.principal, ev.approve, id); }
  }

  lemma {:induction false} ExecutableWasApproved(b: Broker, events: seq<Event>, id: Id)
    requires Inv(b) && id in Run(b, events).rows
    requires NeedsHuman(Run(b, events).rows[id].envelope) && Executable(Run(b, events).rows[id].status)
    ensures Approved(b, events, id) || (id in b.rows && Executable(b.rows[id].status))
    decreases |events|
  {
    if events != [] {
      var b1 := Step(b, events[0]);
      StepKept(b, events[0]);
      ExecutableWasApproved(b1, events[1..], id);
      if !Approved(b1, events[1..], id) {
        RunForward(b1, events[1..]);
        BecomesExecutable(b, events[0], id);
      }
    }
  }

  /** A sensitive or unknown effect, or secret data, executes only after a human approved that very action. */
  lemma ConsequentialNeedsApproval(clock: Instant, events: seq<Event>, ev: Event)
    requires Starts(Run(Initial(clock), events), ev).Some?
    requires NeedsHuman(StartedEnvelope(ev).value)
    ensures Approved(Initial(clock), events, Starts(Run(Initial(clock), events), ev).value)
  {
    RunForward(Initial(clock), events);
    StartingConsumes(Run(Initial(clock), events), ev);
    ExecutableWasApproved(Initial(clock), events, Starts(Run(Initial(clock), events), ev).value);
  }

  /** Over any run, remembered rules never come to allow a sensitive or unknown effect. */
  lemma {:induction false} RunRulesBounded(b: Broker, events: seq<Event>)
    requires Inv(b) && RulesBounded(b)
    ensures RulesBounded(Run(b, events))
    decreases |events|
  {
    if events != [] {
      StepKept(b, events[0]);
      RunRulesBounded(Step(b, events[0]), events[1..]);
    }
  }
}
