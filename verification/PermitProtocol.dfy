/**
 The decision broker: one permit protocol per action, interleaved with host
 restarts, human decisions, invalidations, reviewer changes and completions that
 arrive from outside.

 Every function here is one stretch of broker code between two awaits. A
 per-action lock held across an await is a `Hold`; a stretch that finds the lock
 taken does not run.
 */
module PermitProtocol {
  import opened Options

  type Id = string
  type Instant = real

  datatype Effect = Safe(name: string) | Sensitive(name: string) | Challenge | Unknown | Other(name: string)

  /** Compared as a whole: the canonical hash is injective. */
  datatype Envelope = Envelope(
    id: Id, principal: string, session: string, project: string, run: string, tool: string,
    argsHash: string, target: string, effect: Effect, grant: string, policyVersion: int,
    documentRevision: int, leaseRevision: int, profile: string, account: string, labels: seq<string>)

  datatype Scope = Scope(
    principal: string, session: string, project: string, run: string, tool: string, target: string,
    effect: Effect, grant: string, policyVersion: int, profile: string, account: string)

  function ScopeOf(e: Envelope): Scope {
    Scope(e.principal, e.session, e.project, e.run, e.tool, e.target, e.effect, e.grant, e.policyVersion, e.profile, e.account)
  }

  /** Sensitive effects include recognized challenges. */
  predicate Consequential(effect: Effect) {
    effect.Sensitive? || effect.Challenge? || effect.Unknown?
  }

  predicate NeedsHuman(e: Envelope) {
    Consequential(e.effect) || "secret" in e.labels
  }

  datatype Decision = Allow | NeedsUser | Block
  datatype Status = NeedsUserStatus | ApprovedOnce | Permitted | Executing | Completed | Failed | UnknownOutcome | Blocked | Invalidated
  datatype DecidedBy = Unset | Host | Human | Model | CodingPolicy

  datatype Reviewer = Reviewer(instance: nat, version: string, account: string, model: string)
  datatype Verdict = Verdict(decision: Decision, version: string, expires: Instant)

  datatype Row = Row(
    envelope: Envelope, status: Status, decision: Decision, expires: Instant, permit: Option<nat>,
    source: DecidedBy, reviewerVersion: string, account: string, model: string)

  datatype Rule = Rule(decision: Decision, expires: Instant, scope: Scope, revision: nat)

  datatype Hold =
    | Reviewing(envelope: Envelope, reviewer: Reviewer)
    | Operating(row: Row)

  datatype Broker = Broker(
    clock: Instant, nonce: nat,
    rows: map<Id, Row>, rules: map<nat, Rule>,
    reviewer: Option<Reviewer>, reviewerValid: bool,
    locks: map<Id, Hold>)

  const PERMIT_TTL := 15.0
  const PENDING_TTL := 300.0
  const RULE_TTL := 30.0 * 86400.0

  /** What the caller of a stretch learns. */
  datatype Reply = Granted(row: Row) | ReviewRequired(row: Row) | ActionBlocked(row: Row) | Rejected | Pending | Busy | Done

  datatype Result = Result(after: Broker, reply: Reply)

  function Earlier(a: Instant, b: Instant): Instant { if a <= b then a else b }

  function Put(b: Broker, id: Id, row: Row): Broker { b.(rows := b.rows[id := row]) }

  /** Writes the row of an action, with a new permit when it is permitted. */
  function Record(b: Broker, e: Envelope, decision: Decision, status: Status, expires: Instant,
                  source: DecidedBy, version: string, account: string, model: string): Broker
  {
    var permit := if status == Permitted then Some(b.nonce) else None;
    Put(b, e.id, Row(e, status, decision, expires, permit, source, version, account, model)).(nonce := b.nonce + 1)
  }

  function Refuse(b: Broker, e: Envelope, status: Status): Broker {
    Record(b, e, Block, status, b.clock + PENDING_TTL, Unset, "", "", "")
  }

  /** A model's permit stands only while the very reviewer that gave it is current and qualified. */
  predicate ReviewerPermitValid(b: Broker, row: Row) {
    row.source != Model ||
    (&& b.reviewer.Some? && b.reviewer.value.version == row.reviewerVersion && b.reviewerValid
     && b.reviewer.value.account == row.account && b.reviewer.value.model == row.model)
  }

  function Demoted(b: Broker, row: Row): Row {
    row.(status := NeedsUserStatus, decision := NeedsUser, source := Host, reviewerVersion := "host-policy-v1",
         expires := b.clock + PENDING_TTL, permit := None)
  }

  // ------------------------------------------------------------------ authorize

  predicate RuleApplies(b: Broker, r: nat, e: Envelope) {
    r in b.rules && b.clock < b.rules[r].expires && b.rules[r].scope == ScopeOf(e)
  }

  predicate SomeRule(b: Broker, e: Envelope) {
    exists r :: r in b.rules && RuleApplies(b, r, e)
  }

  predicate SomeBlock(b: Broker, e: Envelope) {
    exists r :: r in b.rules && RuleApplies(b, r, e) && b.rules[r].decision == Block
  }

  datatype Opinion = Opinion(verdict: Verdict, source: DecidedBy)

  function Asking(b: Broker): Verdict { Verdict(NeedsUser, "host-policy-v1", b.clock + PENDING_TTL) }

  function Allowing(b: Broker): Verdict { Verdict(Allow, "host-policy-v1", b.clock + PERMIT_TTL) }

  /** What the host decides by itself about a new action; absent when a qualified reviewer is to be asked. */
  function HostOpinion(b: Broker, e: Envelope, consent: bool): Option<Opinion> {
    if NeedsHuman(e) then Some(Opinion(Asking(b), Unset))
    else if consent then Some(Opinion(Allowing(b), CodingPolicy))
    else if SomeRule(b, e) || e.effect.Safe? then Some(Opinion(Allowing(b), Unset))
    else if b.reviewer.None? || !b.reviewerValid then Some(Opinion(Asking(b), Unset))
    else None
  }

  /** The end of a review: validate again, then record what was decided. */
  function Conclude(b: Broker, e: Envelope, verdict: Verdict, source: DecidedBy, reviewer: Option<Reviewer>, stillValid: bool): Result {
    if !stillValid then
      var b1 := Refuse(b, e, Invalidated);
      Result(b1, ActionBlocked(b1.rows[e.id]))
    else
      var status := match verdict.decision case Allow => Permitted case NeedsUser => NeedsUserStatus case Block => Blocked;
      var expires := Earlier(verdict.expires, b.clock + (if status == Permitted then PERMIT_TTL else PENDING_TTL));
      var b1 := Record(b, e, verdict.decision, status, expires, source, verdict.version,
                       if reviewer.Some? then reviewer.value.account else "", if reviewer.Some? then reviewer.value.model else "");
      var row := b1.rows[e.id];
      Result(b1, if status == Permitted then Granted(row) else if status == Blocked then ActionBlocked(row) else ReviewRequired(row))
  }

  /** A row already exists for this action. */
  function Revisit(b: Broker, row: Row): Result {
    var id := row.envelope.id;
    if row.status == ApprovedOnce then
      var row' := row.(status := Permitted, permit := Some(b.nonce), expires := Earlier(row.expires, b.clock + PERMIT_TTL));
      Result(Put(b, id, row').(nonce := b.nonce + 1), Granted(row'))
    else if row.status == Permitted && b.clock < row.expires then
      if ReviewerPermitValid(b, row) then Result(b, Granted(row))
      else Result(Put(b, id, Demoted(b, row)), ReviewRequired(Demoted(b, row)))
    else Result(b, ReviewRequired(row))
  }

  /**
   Up to the await, or to the end when no model is asked. `valid`, `denied` and
   `consent` are the answers of the host's callbacks; `stillValid` that of the
   second validation.
   */
  function Authorize(b: Broker, e: Envelope, valid: bool, denied: bool, consent: bool, stillValid: bool): Result {
    if e.id in b.locks then Result(b, Busy)
    else if e.id in b.rows && b.rows[e.id].envelope != e then Result(b, Rejected)
    else if !valid || denied || e.effect.Challenge? then
      var b1 := Refuse(b, e, Blocked);
      Result(b1, ActionBlocked(b1.rows[e.id]))
    else if e.id in b.rows then Revisit(b, b.rows[e.id])
    else if SomeBlock(b, e) then
      var b1 := Refuse(b, e, Blocked);
      Result(b1, ActionBlocked(b1.rows[e.id]))
    else if HostOpinion(b, e, consent).Some? then
      var opinion := HostOpinion(b, e, consent).value;
      Conclude(b, e, opinion.verdict, opinion.source, None, stillValid)
    else Result(b.(locks := b.locks[e.id := Reviewing(e, b.reviewer.value)]), Pending)
  }

  predicate VerdictUsable(b: Broker, asked: Reviewer, verdict: Option<Verdict>) {
    && verdict.Some? && b.clock < verdict.value.expires
    && verdict.value.version == asked.version
    && b.reviewer == Some(asked) && b.reviewerValid
  }

  /** After the await: `verdict` is absent when the review failed or timed out. */
  function Resume(b: Broker, id: Id, verdict: Option<Verdict>, stillValid: bool): Result {
    if id !in b.locks || !b.locks[id].Reviewing? then Result(b, Busy)
    else
      var hold := b.locks[id];
      var b1 := b.(locks := b.locks - {id});
      if VerdictUsable(b1, hold.reviewer, verdict) then Conclude(b1, hold.envelope, verdict.value, Model, Some(hold.reviewer), stillValid)
      else Conclude(b1, hold.envelope, Asking(b1), Unset, None, stillValid)
  }

  // ------------------------------------------------------------ human and rules

  function Decide(b: Broker, id: Id, principal: string, approve: bool): Result {
    if id !in b.rows || b.rows[id].envelope.principal != principal || b.rows[id].status != NeedsUserStatus then Result(b, Rejected)
    else if b.rows[id].expires < b.clock then Result(b, Rejected)
    else
      var row := b.rows[id].(status := if approve then ApprovedOnce else Blocked,
                             decision := if approve then Allow else Block, source := Human);
      Result(Put(b, id, row), Done)
  }

  predicate Settled(status: Status) {
    status == Completed || status == Failed || status == UnknownOutcome
  }

  function Withdrawn(row: Row, grant: string, session: string): Row {
    if ((grant != "" && row.envelope.grant == grant) || (session != "" && row.envelope.session == session)) && !Settled(row.status)
    then row.(status := Invalidated) else row
  }

  function Invalidate(b: Broker, grant: string, session: string): Broker {
    b.(rows := map id | id in b.rows :: Withdrawn(b.rows[id], grant, session))
  }

  predicate Bounded(b: Broker, decision: Decision, expires: Instant) {
    decision != NeedsUser && b.clock < expires <= b.clock + RULE_TTL
  }

  function AddRule(b: Broker, e: Envelope, decision: Decision, expires: Instant): Result {
    if !Bounded(b, decision, expires) || (decision == Allow && Consequential(e.effect)) then Result(b, Rejected)
    else Result(b.(rules := b.rules[b.nonce := Rule(decision, expires, ScopeOf(e), 1)], nonce := b.nonce + 1), Done)
  }

  function EditRule(b: Broker, r: nat, decision: Decision, expires: Instant, revision: nat, valid: bool): Result {
    if r !in b.rules || b.rules[r].revision != revision || !Bounded(b, decision, expires) then Result(b, Rejected)
    else if decision == Allow && Consequential(b.rules[r].scope.effect) then Result(b, Rejected)
    else if b.rules[r].expires <= b.clock || !valid then Result(b, Rejected)
    else Result(b.(rules := b.rules[r := b.rules[r].(decision := decision, expires := expires, revision := revision + 1)]), Done)
  }

  // ------------------------------------------------------------------ execution

  /** The permit must be the recorded one, unexpired, for the recorded envelope. */
  predicate PermitHonoured(b: Broker, e: Envelope, permit: nat, valid: bool) {
    && e.id in b.rows && b.rows[e.id].envelope == e && b.rows[e.id].status == Permitted
    && b.clock < b.rows[e.id].expires && b.rows[e.id].permit == Some(permit) && valid
  }

  function Consumed(row: Row): Row {
    row.(status := Executing, permit := None)
  }

  /** Up to the operation's await: the permit is consumed and the consumption stored first. */
  function BeginExecute(b: Broker, e: Envelope, permit: nat, valid: bool): Result {
    if e.id in b.locks then Result(b, Busy)
    else if !PermitHonoured(b, e, permit, valid) then Result(b, Rejected)
    else if !ReviewerPermitValid(b, b.rows[e.id]) then
      Result(Put(b, e.id, Demoted(b, b.rows[e.id])), ReviewRequired(Demoted(b, b.rows[e.id])))
    else
      var row := Consumed(b.rows[e.id]);
      Result(Put(b, e.id, row).(locks := b.locks[e.id := Operating(row)]), Pending)
  }

  /** The operation ended, one way or the other: the row held since then is written back. */
  function EndExecute(b: Broker, id: Id, success: bool): Result {
    if id !in b.locks || !b.locks[id].Operating? then Result(b, Busy)
    else
      var row := b.locks[id].row.(status := if success then Completed else UnknownOutcome);
      Result(Put(b, id, row).(locks := b.locks - {id}), Done)
  }

  /** Consumes the permit and hands execution to a native hook. */
  function ConsumeExternal(b: Broker, e: Envelope, permit: nat, valid: bool): Result {
    if e.id in b.locks then Result(b, Busy)
    else if !PermitHonoured(b, e, permit, valid) then Result(b, Rejected)
    else if !ReviewerPermitValid(b, b.rows[e.id]) then
      Result(Put(b, e.id, Demoted(b, b.rows[e.id])), ReviewRequired(Demoted(b, b.rows[e.id])))
    else Result(Put(b, e.id, Consumed(b.rows[e.id])), Done)
  }

  function CompleteExternal(b: Broker, id: Id, success: bool): Broker {
    if id in b.rows && b.rows[id].status == Executing
    then Put(b, id, b.rows[id].(status := if success then Completed else UnknownOutcome)) else b
  }

  function Stranded(row: Row): Row {
    if row.status == Permitted || row.status == Executing then row.(status := Invalidated) else row
  }

  /** A new host process over the stored rows: its locks are new and nothing is in flight. */
  function Restart(b: Broker): Broker {
    b.(rows := map id | id in b.rows :: Stranded(b.rows[id]), locks := map[], reviewer := None, reviewerValid := true)
  }

  // ----------------------------------------------------------------------- runs

  type Duration = r: real | r >= 0.0 witness 0.0

  datatype Event =
    | Advance(dt: Duration)
    | DoAuthorize(e: Envelope, valid: bool, denied: bool, consent: bool, stillValid: bool)
    | DoResume(id: Id, verdict: Option<Verdict>, stillValid: bool)
    | DoDecide(id: Id, principal: string, approve: bool)
    | DoInvalidate(grant: string, session: string)
    | DoAddRule(e: Envelope, decision: Decision, expires: Instant)
    | DoEditRule(r: nat, decision: Decision, expires: Instant, revision: nat, valid: bool)
    | RevokeRule(r: nat)
    | DoBeginExecute(e: Envelope, permit: nat, valid: bool)
    | DoEndExecute(id: Id, success: bool)
    | DoConsumeExternal(e: Envelope, permit: nat, valid: bool)
    | DoCompleteExternal(id: Id, success: bool)
    | SetReviewer(reviewer: Option<Reviewer>, qualified: bool)
    | DoRestart

  function Step(b: Broker, ev: Event): Broker {
    match ev
    case Advance(dt) => b.(clock := b.clock + dt)
    case DoAuthorize(e, valid, denied, consent, stillValid) => Authorize(b, e, valid, denied, consent, stillValid).after
    case DoResume(id, verdict, stillValid) => Resume(b, id, verdict, stillValid).after
    case DoDecide(id, principal, approve) => Decide(b, id, principal, approve).after
    case DoInvalidate(grant, session) => Invalidate(b, grant, session)
    case DoAddRule(e, decision, expires) => AddRule(b, e, decision, expires).after
    case DoEditRule(r, decision, expires, revision, valid) => EditRule(b, r, decision, expires, revision, valid).after
    case RevokeRule(r) => b.(rules := b.rules - {r})
    case DoBeginExecute(e, permit, valid) => BeginExecute(b, e, permit, valid).after
    case DoEndExecute(id, success) => EndExecute(b, id, success).after
    case DoConsumeExternal(e, permit, valid) => ConsumeExternal(b, e, permit, valid).after
    case DoCompleteExternal(id, success) => CompleteExternal(b, id, success)
    case SetReviewer(reviewer, qualified) => b.(reviewer := reviewer, reviewerValid := qualified)
    case DoRestart => Restart(b)
  }

  function Run(b: Broker, events: seq<Event>): Broker
    decreases |events|
  {
    if events == [] then b else Run(Step(b, events[0]), events[1..])
  }

  function Initial(clock: Instant): Broker {
    Broker(clock, 0, map[], map[], None, true, map[])
  }

  /** The action a step starts executing, here or through a native hook. */
  function Starts(b: Broker, ev: Event): Option<Id> {
    match ev
    case DoBeginExecute(e, permit, valid) => if BeginExecute(b, e, permit, valid).reply.Pending? then Some(e.id) else None
    case DoConsumeExternal(e, permit, valid) => if ConsumeExternal(b, e, permit, valid).reply.Done? then Some(e.id) else None
    case _ => None
  }
}
