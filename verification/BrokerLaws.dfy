/**
 What each stretch of the broker does, said of stored rows and rules alone: when
 it answers which way, and what it writes.
 */
module BrokerLaws {
  import opened Options
  import opened PermitProtocol
  import opened BrokerSafety

  // ------------------------------------------------------- rules and actions

  /** The rule was remembered for actions like this one in every respect, and is still in force. */
  predicate Covers(b: Broker, r: nat, e: Envelope) {
    && r in b.rules && b.clock < b.rules[r].expires
    && var s := b.rules[r].scope;
    && s.principal == e.principal && s.session == e.session && s.project == e.project && s.run == e.run
    && s.tool == e.tool && s.target == e.target && s.effect == e.effect && s.grant == e.grant
    && s.policyVersion == e.policyVersion && s.profile == e.profile && s.account == e.account
  }

  ghost predicate Remembered(b: Broker, e: Envelope) { exists r: nat :: Covers(b, r, e) }

  /** A remembered deny stands against the action. */
  ghost predicate Denies(b: Broker, e: Envelope) {
    exists r: nat :: Covers(b, r, e) && b.rules[r].decision == Block
  }

  predicate Grave(effect: Effect) { effect.Sensitive? || effect.Challenge? || effect.Unknown? }

  predicate ForHumans(e: Envelope) { Grave(e.effect) || "secret" in e.labels }

  /** The action is not in anybody's hands, and its id does not stand for another action. */
  predicate Open(b: Broker, e: Envelope) {
    e.id !in b.locks && (e.id in b.rows ==> b.rows[e.id].envelope == e)
  }

  /** The reviewer who permitted it, if one did, is the current one and qualified. */
  predicate ReviewerStands(b: Broker, row: Row) {
    row.source == Model ==>
      && b.reviewer.Some? && b.reviewerValid
      && b.reviewer.value.version == row.reviewerVersion && b.reviewer.value.account == row.account && b.reviewer.value.model == row.model
  }

  lemma CoversExactly(b: Broker, e: Envelope)
    ensures forall r: nat :: Covers(b, r, e) <==> RuleApplies(b, r, e)
    ensures Remembered(b, e) <==> SomeRule(b, e)
    ensures Denies(b, e) <==> SomeBlock(b, e)
  {
    if SomeRule(b, e) { var r :| r in b.rules && RuleApplies(b, r, e); assert Covers(b, r, e); }
    if SomeBlock(b, e) { var r :| r in b.rules && RuleApplies(b, r, e) && b.rules[r].decision == Block; assert Covers(b, r, e); }
  }

  // ------------------------------------------------------------ authorization

  /** One row is written for the action; it has a permit, and a new one, exactly when it is permitted. */
  predicate Written(b: Broker, e: Envelope, row: Row, b': Broker) {
    && b' == b.(nonce := b'.nonce, rows := b.rows[e.id := row]) && b.nonce <= b'.nonce
    && row.envelope == e && (row.permit.Some? <==> row.status == Permitted)
    && (row.permit.Some? ==> b.nonce <= row.permit.value < b'.nonce)
  }

  /** What the host has decided by itself. */
  predicate HostDecides(b: Broker, row: Row, status: Status, decision: Decision, ttl: real, source: DecidedBy) {
    && row.status == status && row.decision == decision && row.expires == b.clock + ttl
    && row.source == source && row.account == "" && row.model == ""
  }

  /** The permit of a reviewer who is gone is taken back; a human may still approve. */
  predicate TakenBack(b: Broker, row: Row, row': Row) {
    row' == row.(status := NeedsUserStatus, decision := NeedsUser, source := Host, reviewerVersion := "host-policy-v1",
                 expires := b.clock + 300.0, permit := None)
  }

  /** An action seen before: one approval buys one permit, a standing permit is given again. */
  ghost predicate RevisitLaw(b: Broker, e: Envelope, b': Broker, reply: Reply)
    requires e.id in b.rows
  {
    var row := b.rows[e.id];
    var stands := row.status == Permitted && b.clock < row.expires;
    && (reply.Granted? <==> row.status == ApprovedOnce || (stands && ReviewerStands(b, row)))
    && (reply.Granted? || reply.ReviewRequired?)
    && (row.status == ApprovedOnce ==>
          && Written(b, e, reply.row, b')
          && reply.row == row.(status := Permitted, permit := reply.row.permit, expires := reply.row.expires)
          && reply.row.expires <= row.expires && reply.row.expires <= b.clock + 15.0
          && (reply.row.expires == row.expires || reply.row.expires == b.clock + 15.0))
    && (stands && !ReviewerStands(b, row) ==> b' == b.(rows := b.rows[e.id := reply.row]) && TakenBack(b, row, reply.row))
    && (row.status != ApprovedOnce && (stands ==> ReviewerStands(b, row)) ==> b' == b && reply.row == row)
  }

  /** An action nobody saw before. */
  ghost predicate NewActionLaw(b: Broker, e: Envelope, consent: bool, stillValid: bool, b': Broker, reply: Reply) {
    var allowed := !ForHumans(e) && (consent || Remembered(b, e) || e.effect.Safe?);
    var asks := !ForHumans(e) && !allowed && b.reviewer.Some? && b.reviewerValid;
    && (reply.Granted? <==> !Denies(b, e) && allowed && stillValid)
    && (reply.Pending? <==> !Denies(b, e) && asks)
    && (reply.ReviewRequired? <==> !Denies(b, e) && !allowed && !asks && stillValid)
    && (reply.ActionBlocked? <==> Denies(b, e) || (!asks && !stillValid))
    && (reply.Granted? ==>
          Written(b, e, reply.row, b') && HostDecides(b, reply.row, Permitted, Allow, 15.0, if consent then CodingPolicy else Unset))
    && (reply.ReviewRequired? ==> Written(b, e, reply.row, b') && HostDecides(b, reply.row, NeedsUserStatus, NeedsUser, 300.0, Unset))
    && (reply.ActionBlocked? ==>
          && Written(b, e, reply.row, b')
          && HostDecides(b, reply.row, if Denies(b, e) then Blocked else Invalidated, Block, 300.0, Unset))
    && (reply.Pending? ==> b' == b.(locks := b.locks[e.id := Reviewing(e, b.reviewer.value)]))
  }

  ghost predicate AuthorizeLaw(b: Broker, e: Envelope, valid: bool, denied: bool, consent: bool, stillValid: bool, b': Broker, reply: Reply) {
    && (reply.Busy? <==> e.id in b.locks)
    && (reply.Rejected? <==> e.id !in b.locks && !Open(b, e))
    && (!Open(b, e) ==> b' == b)
    && (Open(b, e) ==>
          if !valid || denied || e.effect.Challenge? then
            reply.ActionBlocked? && Written(b, e, reply.row, b') && HostDecides(b, reply.row, Blocked, Block, 300.0, Unset)
          else if e.id in b.rows then RevisitLaw(b, e, b', reply)
          else NewActionLaw(b, e, consent, stillValid, b', reply))
  }

  lemma NewActionLawful(b: Broker, e: Envelope, consent: bool, stillValid: bool)
    requires e.id !in b.locks && e.id !in b.rows && !e.effect.Challenge?
    ensures var r := Authorize(b, e, true, false, consent, stillValid); NewActionLaw(b, e, consent, stillValid, r.after, r.reply)
  {
    CoversExactly(b, e);
  }

  lemma AuthorizeLawful(b: Broker, e: Envelope, valid: bool, denied: bool, consent: bool, stillValid: bool)
    ensures var r := Authorize(b, e, valid, denied, consent, stillValid);
      AuthorizeLaw(b, e, valid, denied, consent, stillValid, r.after, r.reply)
  {
    if Open(b, e) && valid && !denied && !e.effect.Challenge? && e.id !in b.rows { NewActionLawful(b, e, consent, stillValid); }
  }

  /** The verdict is in time and from the very reviewer asked, who is still the current one and qualified. */
  predicate Counts(b: Broker, asked: Reviewer, verdict: Option<Verdict>) {
    && verdict.Some? && b.clock < verdict.value.expires && verdict.value.version == asked.version
    && b.reviewer == Some(asked) && b.reviewerValid
  }

  /** What a verdict that counts comes to; it lasts no longer than the reviewer said. */
  predicate ReviewerDecides(b: Broker, row: Row, verdict: Verdict, asked: Reviewer) {
    var ttl := if verdict.decision == Allow then 15.0 else 300.0;
    && row.status == (match verdict.decision case Allow => Permitted case NeedsUser => NeedsUserStatus case Block => Blocked)
    && row.decision == verdict.decision && row.source == Model
    && row.reviewerVersion == verdict.version && row.account == asked.account && row.model == asked.model
    && row.expires <= verdict.expires && row.expires <= b.clock + ttl
    && (row.expires == verdict.expires || row.expires == b.clock + ttl)
  }

  /** After the await the action is released, and nothing is permitted but by a verdict that counts. */
  ghost predicate ResumeLaw(b: Broker, id: Id, verdict: Option<Verdict>, stillValid: bool, b': Broker, reply: Reply) {
    && (reply.Busy? <==> !(id in b.locks && b.locks[id].Reviewing?))
    && (reply.Busy? ==> b' == b)
    && (!reply.Busy? ==>
          var e, asked, free := b.locks[id].envelope, b.locks[id].reviewer, b.(locks := b.locks - {id});
          && (reply.Granted? || reply.ActionBlocked? || reply.ReviewRequired?) && Written(free, e, reply.row, b')
          && (reply.Granted? <==> stillValid && Counts(b, asked, verdict) && verdict.value.decision == Allow)
          && (reply.ActionBlocked? <==> !stillValid || (Counts(b, asked, verdict) && verdict.value.decision == Block))
          && (if !stillValid then HostDecides(b, reply.row, Invalidated, Block, 300.0, Unset)
              else if Counts(b, asked, verdict) then ReviewerDecides(b, reply.row, verdict.value, asked)
              else HostDecides(b, reply.row, NeedsUserStatus, NeedsUser, 300.0, Unset)))
  }

  lemma ResumeLawful(b: Broker, id: Id, verdict: Option<Verdict>, stillValid: bool)
    ensures var r := Resume(b, id, verdict, stillValid); ResumeLaw(b, id, verdict, stillValid, r.after, r.reply)
  {
  }

  // --------------------------------------------------------- humans and rules

  ghost predicate DecideLaw(b: Broker, id: Id, principal: string, approve: bool, b': Broker, reply: Reply) {
    && (reply.Done? <==>
          && id in b.rows && b.rows[id].envelope.principal == principal
          && b.rows[id].status == NeedsUserStatus && b.clock <= b.rows[id].expires)
    && (reply.Done? || reply.Rejected?)
    && (reply.Rejected? ==> b' == b)
    && (reply.Done? ==>
          b' == b.(rows := b.rows[id := b.rows[id].(
            status := if approve then ApprovedOnce else Blocked, decision := if approve then Allow else Block, source := Human)]))
  }

  lemma DecideLawful(b: Broker, id: Id, principal: string, approve: bool)
    ensures var r := Decide(b, id, principal, approve); DecideLaw(b, id, principal, approve, r.after, r.reply)
  {
  }

  /** The row is of the grant or the session named; an empty name names none. */
  predicate Concerned(row: Row, grant: string, session: string) {
    (grant != "" && row.envelope.grant == grant) || (session != "" && row.envelope.session == session)
  }

  ghost predicate InvalidateLaw(b: Broker, grant: string, session: string, b': Broker) {
    && b' == b.(rows := b'.rows) && b'.rows.Keys == b.rows.Keys
    && forall id :: id in b.rows ==>
         var s := b.rows[id].status;
         b'.rows[id] == if Concerned(b.rows[id], grant, session) && s != Completed && s != Failed && s != UnknownOutcome
                        then b.rows[id].(status := Invalidated) else b.rows[id]
  }

  lemma InvalidateLawful(b: Broker, grant: string, session: string)
    ensures InvalidateLaw(b, grant, session, Invalidate(b, grant, session))
  {
  }

  /** At most thirty days, and no allowance for a grave effect. */
  predicate Rememberable(b: Broker, decision: Decision, expires: Instant, effect: Effect) {
    && (decision == Allow || decision == Block) && b.clock < expires <= b.clock + 2592000.0
    && (Grave(effect) ==> decision == Block)
  }

  ghost predicate AddRuleLaw(b: Broker, e: Envelope, decision: Decision, expires: Instant, b': Broker, reply: Reply) {
    && (reply.Done? <==> Rememberable(b, decision, expires, e.effect))
    && (reply.Done? || reply.Rejected?)
    && (reply.Rejected? ==> b' == b)
    && (reply.Done? ==>
          exists r: nat ::
            && b.nonce <= r < b'.nonce && r in b'.rules && b' == b.(nonce := b'.nonce, rules := b.rules[r := b'.rules[r]])
            && Covers(b', r, e) && b'.rules[r].decision == decision && b'.rules[r].expires == expires && b'.rules[r].revision == 1)
  }

  lemma AddRuleLawful(b: Broker, e: Envelope, decision: Decision, expires: Instant)
    ensures var r := AddRule(b, e, decision, expires); AddRuleLaw(b, e, decision, expires, r.after, r.reply)
  {
    var b' := AddRule(b, e, decision, expires).after;
    if b' != b { assert Covers(b', b.nonce, e); }
  }

  ghost predicate EditRuleLaw(b: Broker, r: nat, decision: Decision, expires: Instant, revision: nat, valid: bool, b': Broker, reply: Reply) {
    && (reply.Done? <==>
          && r in b.rules && b.rules[r].revision == revision && b.clock < b.rules[r].expires && valid
          && Rememberable(b, decision, expires, b.rules[r].scope.effect))
    && (reply.Done? || reply.Rejected?)
    && (reply.Rejected? ==> b' == b)
    && (reply.Done? ==> b' == b.(rules := b.rules[r := Rule(decision, expires, b.rules[r].scope, revision + 1)]))
  }

  lemma EditRuleLawful(b: Broker, r: nat, decision: Decision, expires: Instant, revision: nat, valid: bool)
    ensures var x := EditRule(b, r, decision, expires, revision, valid);
      EditRuleLaw(b, r, decision, expires, revision, valid, x.after, x.reply)
  {
  }

  // ---------------------------------------------------------------- execution

  /** The permit is the one recorded, for this very action, in time, and still valid. */
  predicate Honoured(b: Broker, e: Envelope, permit: nat, valid: bool) {
    && e.id !in b.locks && e.id in b.rows && valid
    && var row := b.rows[e.id];
    && row.envelope == e && row.status == Permitted && row.permit == Some(permit) && b.clock < row.expires
  }

  /** The permit is gone and the action is executing. */
  predicate Spends(row: Row, row': Row) { row' == row.(status := Executing, permit := None) }

  ghost predicate StartLaw(b: Broker, e: Envelope, permit: nat, valid: bool, started: bool, b': Broker, reply: Reply) {
    && (started <==> Honoured(b, e, permit, valid) && ReviewerStands(b, b.rows[e.id]))
    && (reply.ReviewRequired? <==> Honoured(b, e, permit, valid) && !ReviewerStands(b, b.rows[e.id]))
    && (reply.Busy? <==> e.id in b.locks)
    && (reply.Busy? || reply.Rejected? ==> b' == b)
    && (started || reply.ReviewRequired? || reply.Busy? || reply.Rejected?)
    && (reply.ReviewRequired? ==> b' == b.(rows := b.rows[e.id := reply.row]) && TakenBack(b, b.rows[e.id], reply.row))
  }

  ghost predicate BeginExecuteLaw(b: Broker, e: Envelope, permit: nat, valid: bool, b': Broker, reply: Reply) {
    && StartLaw(b, e, permit, valid, reply.Pending?, b', reply)
    && (reply.Pending? ==>
          && e.id in b.rows && e.id in b'.rows && Spends(b.rows[e.id], b'.rows[e.id])
          && b' == b.(rows := b.rows[e.id := b'.rows[e.id]], locks := b.locks[e.id := Operating(b'.rows[e.id])]))
  }

  lemma BeginExecuteLawful(b: Broker, e: Envelope, permit: nat, valid: bool)
    ensures var r := BeginExecute(b, e, permit, valid); BeginExecuteLaw(b, e, permit, valid, r.after, r.reply)
  {
  }

  ghost predicate ConsumeExternalLaw(b: Broker, e: Envelope, permit: nat, valid: bool, b': Broker, reply: Reply) {
    && StartLaw(b, e, permit, valid, reply.Done?, b', reply)
    && (reply.Done? ==>
          && e.id in b.rows && e.id in b'.rows && Spends(b.rows[e.id], b'.rows[e.id])
          && b' == b.(rows := b.rows[e.id := b'.rows[e.id]]))
  }

  lemma ConsumeExternalLawful(b: Broker, e: Envelope, permit: nat, valid: bool)
    ensures var r := ConsumeExternal(b, e, permit, valid); ConsumeExternalLaw(b, e, permit, valid, r.after, r.reply)
  {
  }

  function Settling(success: bool): Status { if success then Completed else UnknownOutcome }

  /** The outcome goes onto the row as it was when the operation began, whatever was written since. */
  ghost predicate EndExecuteLaw(b: Broker, id: Id, success: bool, b': Broker, reply: Reply) {
    && (reply.Done? <==> id in b.locks && b.locks[id].Operating?)
    && (reply.Done? || reply.Busy?)
    && (reply.Busy? ==> b' == b)
    && (reply.Done? ==> b' == b.(locks := b.locks - {id}, rows := b.rows[id := b.locks[id].row.(status := Settling(success))]))
  }

  lemma EndExecuteLawful(b: Broker, id: Id, success: bool)
    ensures var r := EndExecute(b, id, success); EndExecuteLaw(b, id, success, r.after, r.reply)
  {
  }

  ghost predicate CompleteExternalLaw(b: Broker, id: Id, success: bool, b': Broker) {
    b' == if id in b.rows && b.rows[id].status == Executing
          then b.(rows := b.rows[id := b.rows[id].(status := Settling(success))]) else b
  }

  lemma CompleteExternalLawful(b: Broker, id: Id, success: bool)
    ensures CompleteExternalLaw(b, id, success, CompleteExternal(b, id, success))
  {
  }

  /** Nothing that was permitted or running survives the host. */
  ghost predicate RestartLaw(b: Broker, b': Broker) {
    && b'.rules == b.rules && b'.nonce == b.nonce && b'.clock == b.clock && b'.locks == map[] && b'.reviewer.None? && b'.reviewerValid
    && b'.rows.Keys == b.rows.Keys
    && forall id :: id in b.rows ==>
         b'.rows[id] == b.rows[id].(status := b'.rows[id].status)
         && b'.rows[id].status == (if b.rows[id].status in {Permitted, Executing} then Invalidated else b.rows[id].status)
  }

  lemma RestartLawful(b: Broker)
    ensures RestartLaw(b, Restart(b))
  {
  }

  // --------------------------------------------------------------- every step

  /** What a step does, and the action it starts, if it starts one. */
  ghost predicate StepLaw(b: Broker, ev: Event, b': Broker, started: Option<Id>) {
    match ev
    case Advance(dt) => b' == b.(clock := b.clock + dt)
    case DoAuthorize(e, valid, denied, consent, stillValid) =>
      exists reply: Reply :: AuthorizeLaw(b, e, valid, denied, consent, stillValid, b', reply)
    case DoResume(id, verdict, stillValid) => exists reply: Reply :: ResumeLaw(b, id, verdict, stillValid, b', reply)
    case DoDecide(id, principal, approve) => exists reply: Reply :: DecideLaw(b, id, principal, approve, b', reply)
    case DoInvalidate(grant, session) => InvalidateLaw(b, grant, session, b')
    case DoAddRule(e, decision, expires) => exists reply: Reply :: AddRuleLaw(b, e, decision, expires, b', reply)
    case DoEditRule(r, decision, expires, revision, valid) =>
      exists reply: Reply :: EditRuleLaw(b, r, decision, expires, revision, valid, b', reply)
    case RevokeRule(r) => b' == b.(rules := b.rules - {r})
    case DoBeginExecute(e, permit, valid) =>
      exists reply: Reply :: BeginExecuteLaw(b, e, permit, valid, b', reply) && started == if reply.Pending? then Some(e.id) else None
    case DoEndExecute(id, success) => exists reply: Reply :: EndExecuteLaw(b, id, success, b', reply)
    case DoConsumeExternal(e, permit, valid) =>
      exists reply: Reply :: ConsumeExternalLaw(b, e, permit, valid, b', reply) && started == if reply.Done? then Some(e.id) else None
    case DoCompleteExternal(id, success) => CompleteExternalLaw(b, id, success, b')
    case SetReviewer(reviewer, qualified) => b' == b.(reviewer := reviewer, reviewerValid := qualified)
    case DoRestart => RestartLaw(b, b')
  }

  /** Every step of the protocol, in any state, does what the rows say. */
  lemma StepLawful(b: Broker, ev: Event)
    ensures StepLaw(b, ev, Step(b, ev), Starts(b, ev))
    ensures !ev.DoBeginExecute? && !ev.DoConsumeExternal? ==> Starts(b, ev).None?
  {
    match ev
    case DoAuthorize(e, valid, denied, consent, stillValid) => AuthorizeLawful(b, e, valid, denied, consent, stillValid);
    case DoResume(id, verdict, stillValid) => ResumeLawful(b, id, verdict, stillValid);
    case DoDecide(id, principal, approve) => DecideLawful(b, id, principal, approve);
    case DoInvalidate(grant, session) => InvalidateLawful(b, grant, session);
    case DoAddRule(e, decision, expires) => AddRuleLawful(b, e, decision, expires);
    case DoEditRule(r, decision, expires, revision, valid) => EditRuleLawful(b, r, decision, expires, revision, valid);
    case DoBeginExecute(e, permit, valid) => BeginExecuteLawful(b, e, permit, valid);
    case DoEndExecute(id, success) => EndExecuteLawful(b, id, success);
    case DoConsumeExternal(e, permit, valid) => ConsumeExternalLawful(b, e, permit, valid);
    case DoCompleteExternal(id, success) => CompleteExternalLawful(b, id, success);
    case DoRestart => RestartLawful(b);
    case _ =>
  }

  // ------------------------------------------------------------ over whole runs

  lemma TerminalNeverStarts(b: Broker, id: Id, after: seq<Event>, ev: Event)
    requires Inv(b) && id in b.rows && Terminal(b.rows[id].status)
    ensures Starts(Run(b, after), ev) != Some(id)
  {
    RunForward(b, after);
    if Starts(Run(b, after), ev).Some? { StartingConsumes(Run(b, after), ev); }
  }

  lemma BlockedIsTerminal(b: Broker, e: Envelope, valid: bool, denied: bool, consent: bool, stillValid: bool)
    requires Authorize(b, e, valid, denied, consent, stillValid).reply.ActionBlocked?
    ensures var b' := Authorize(b, e, valid, denied, consent, stillValid).after; e.id in b'.rows && Terminal(b'.rows[e.id].status)
  {
    AuthorizeLawful(b, e, valid, denied, consent, stillValid);
  }

  /** What was blocked when it asked is never started afterwards, in any interleaving. */
  lemma BlockedNeverStarts(b: Broker, e: Envelope, valid: bool, denied: bool, consent: bool, stillValid: bool, after: seq<Event>, ev: Event)
    requires Inv(b) && Authorize(b, e, valid, denied, consent, stillValid).reply.ActionBlocked?
    ensures Starts(Run(Step(b, DoAuthorize(e, valid, denied, consent, stillValid)), after), ev) != Some(e.id)
  {
    BlockedIsTerminal(b, e, valid, denied, consent, stillValid);
    StepKept(b, DoAuthorize(e, valid, denied, consent, stillValid));
    TerminalNeverStarts(Step(b, DoAuthorize(e, valid, denied, consent, stillValid)), e.id, after, ev);
  }

  /** An action that first asks while a remembered deny stands against it is never started, whatever becomes of the rule. */
  lemma StandingDenyIsFinal(b: Broker, e: Envelope, valid: bool, denied: bool, consent: bool, stillValid: bool, after: seq<Event>, ev: Event)
    requires Inv(b) && e.id !in b.locks && e.id !in b.rows && Denies(b, e)
    ensures Starts(Run(Step(b, DoAuthorize(e, valid, denied, consent, stillValid)), after), ev) != Some(e.id)
  {
    AuthorizeLawful(b, e, valid, denied, consent, stillValid);
    BlockedNeverStarts(b, e, valid, denied, consent, stillValid, after, ev);
  }

  /** A grant can be used: until it expires, the permit it came with starts the action. */
  lemma GrantIsUsable(b: Broker, e: Envelope, valid: bool, denied: bool, consent: bool, stillValid: bool, dt: Duration)
    requires Inv(b) && Authorize(b, e, valid, denied, consent, stillValid).reply.Granted?
    ensures var r := Authorize(b, e, valid, denied, consent, stillValid);
      && r.reply.row.permit.Some?
      && (b.clock + dt < r.reply.row.expires ==>
            (Starts(Step(r.after, Advance(dt)), DoBeginExecute(e, r.reply.row.permit.value, true)) == Some(e.id) <==>
             ReviewerStands(r.after, r.reply.row)))
  {
    AuthorizeLawful(b, e, valid, denied, consent, stillValid);
    var r := Authorize(b, e, valid, denied, consent, stillValid);
    if e.id in b.rows { assert RowSound(e.id, b.rows[e.id]); }
    BeginExecuteLawful(Step(r.after, Advance(dt)), e, r.reply.row.permit.value, true);
  }
}
