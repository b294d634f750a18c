/**
 The broker as one object over the stored rows and rules. Each method is one
 stretch between awaits, proved against the function of the same purpose.
 */
module Decisions {
  import opened Options
  import opened PermitProtocol
  import opened BrokerLaws

  /** What is granted is on record, permitted. */
  lemma GrantStands(b: Broker, e: Envelope, valid: bool, denied: bool, consent: bool, stillValid: bool)
    requires forall id :: id in b.rows ==> b.rows[id].envelope.id == id
    ensures var r := PermitProtocol.Authorize(b, e, valid, denied, consent, stillValid);
      r.reply.Granted? ==> e.id in r.after.rows && r.after.rows[e.id] == r.reply.row && r.reply.row.status == Permitted
  {
  }

  /** All rows but those pending are withdrawn. */
  ghost predicate Halfway(before: map<Id, Row>, rows: map<Id, Row>, pending: set<Id>, grant: string, session: string) {
    && rows.Keys == before.Keys
    && forall id :: id in before ==> rows[id] == if id in pending then before[id] else Withdrawn(before[id], grant, session)
  }

  class DecisionBroker {
    var state: Broker

    constructor (stored: Broker)
      ensures state == Restart(stored)
      ensures RestartLaw(stored, state)
    {
      RestartLawful(stored);
      state := Broker(stored.clock, stored.nonce,
                      map id | id in stored.rows ::
                        if stored.rows[id].status == Permitted || stored.rows[id].status == Executing
                        then stored.rows[id].(status := Invalidated) else stored.rows[id],
                      stored.rules, None, true, map[]);
    }

    method Write(row: Row)
      modifies this
      ensures state == Put(old(state), row.envelope.id, row)
    {
      state := state.(rows := state.rows[row.envelope.id := row]);
    }

    method WriteNew(e: Envelope, decision: Decision, status: Status, expires: Instant,
                    source: DecidedBy, version: string, account: string, model: string) returns (row: Row)
      modifies this
      ensures state == Record(old(state), e, decision, status, expires, source, version, account, model)
      ensures row == state.rows[e.id]
    {
      row := Row(e, status, decision, expires, None, source, version, account, model);
      if status == Permitted {
        row := row.(permit := Some(state.nonce));
      }
      state := state.(nonce := state.nonce + 1);
      Write(row);
    }

    method Finish(e: Envelope, verdict: Verdict, source: DecidedBy, reviewer: Option<Reviewer>, stillValid: bool) returns (reply: Reply)
      modifies this
      ensures Result(state, reply) == Conclude(old(state), e, verdict, source, reviewer, stillValid)
    {
      if !stillValid {
        var refused := WriteNew(e, Block, Invalidated, state.clock + PENDING_TTL, Unset, "", "", "");
        return ActionBlocked(refused);
      }
      var status, ttl := Blocked, 300.0;
      match verdict.decision {
        case Allow => status, ttl := Permitted, 15.0;
        case NeedsUser => status := NeedsUserStatus;
        case Block =>
      }
      var account, model := "", "";
      if reviewer.Some? {
        account, model := reviewer.value.account, reviewer.value.model;
      }
      var row := WriteNew(e, verdict.decision, status, Earlier(verdict.expires, state.clock + ttl), source, verdict.version, account, model);
      return if status == Permitted then Granted(row) else if status == Blocked then ActionBlocked(row) else ReviewRequired(row);
    }

    /** Withdraws an unconsumed model permit whose reviewer is gone; a fresh human consent may still follow. */
    method CheckReviewer(row: Row) returns (valid: bool)
      modifies this
      ensures valid == ReviewerPermitValid(old(state), row)
      ensures state == if valid then old(state) else Put(old(state), row.envelope.id, Demoted(old(state), row))
    {
      if row.source != Model {
        return true;
      }
      valid := state.reviewer.Some? && state.reviewer.value.version == row.reviewerVersion && state.reviewerValid
        && state.reviewer.value.account == row.account && state.reviewer.value.model == row.model;
      if !valid {
        Write(row.(status := NeedsUserStatus, decision := NeedsUser, source := Host, reviewerVersion := "host-policy-v1",
                   expires := state.clock + PENDING_TTL, permit := None));
      }
    }

    /** The answer for an action that is on record, by its status. */
    method Reconsider(id: Id) returns (reply: Reply)
      requires id in state.rows && state.rows[id].envelope.id == id
      modifies this
      ensures Result(state, reply) == Revisit(old(state), old(state).rows[id])
    {
      var row := state.rows[id];
      if row.status == ApprovedOnce {
        row := row.(status := Permitted, permit := Some(state.nonce), expires := Earlier(row.expires, state.clock + PERMIT_TTL));
        state := state.(nonce := state.nonce + 1);
        Write(row);
        return Granted(row);
      }
      if row.status == Permitted && state.clock < row.expires {
        var stands := CheckReviewer(row);
        return if stands then Granted(row) else ReviewRequired(state.rows[id]);
      }
      return ReviewRequired(row);
    }

    method Authorize(e: Envelope, valid: bool, denied: bool, consent: bool, stillValid: bool) returns (reply: Reply)
      requires forall id :: id in state.rows ==> state.rows[id].envelope.id == id
      modifies this
      ensures Result(state, reply) == PermitProtocol.Authorize(old(state), e, valid, denied, consent, stillValid)
      ensures reply.Granted? ==> e.id in state.rows && state.rows[e.id] == reply.row && reply.row.status == Permitted
      ensures AuthorizeLaw(old(state), e, valid, denied, consent, stillValid, state, reply)
    {
      AuthorizeLawful(state, e, valid, denied, consent, stillValid);
      GrantStands(state, e, valid, denied, consent, stillValid);
      if e.id in state.locks {
        return Busy;
      }
      if e.id in state.rows && state.rows[e.id].envelope != e {
        return Rejected;
      }
      if !valid || denied || e.effect.Challenge? {
        var refused := WriteNew(e, Block, Blocked, state.clock + PENDING_TTL, Unset, "", "", "");
        return ActionBlocked(refused);
      }
      if e.id in state.rows {
        reply := Reconsider(e.id);
        return;
      }
      if exists r :: r in state.rules && RuleApplies(state, r, e) && state.rules[r].decision == Block {
        var refused := WriteNew(e, Block, Blocked, state.clock + PENDING_TTL, Unset, "", "", "");
        return ActionBlocked(refused);
      }
      if NeedsHuman(e) {
        reply := Finish(e, Asking(state), Unset, None, stillValid);
      } else if consent {
        reply := Finish(e, Allowing(state), CodingPolicy, None, stillValid);
      } else if (exists r :: r in state.rules && RuleApplies(state, r, e)) || e.effect.Safe? {
        reply := Finish(e, Allowing(state), Unset, None, stillValid);
      } else if state.reviewer.None? || !state.reviewerValid {
        reply := Finish(e, Asking(state), Unset, None, stillValid);
      } else {
        state := state.(locks := state.locks[e.id := Reviewing(e, state.reviewer.value)]);
        reply := Pending;
      }
    }

    method ResumeAuthorize(id: Id, verdict: Option<Verdict>, stillValid: bool) returns (reply: Reply)
      modifies this
      ensures Result(state, reply) == Resume(old(state), id, verdict, stillValid)
      ensures !reply.Busy? ==> id in old(state).locks && id !in state.locks
      ensures ResumeLaw(old(state), id, verdict, stillValid, state, reply)
    {
      ResumeLawful(state, id, verdict, stillValid);
      if id !in state.locks || !state.locks[id].Reviewing? {
        return Busy;
      }
      var hold := state.locks[id];
      state := state.(locks := state.locks - {id});
      if verdict.Some? && state.clock < verdict.value.expires && verdict.value.version == hold.reviewer.version
         && state.reviewer == Some(hold.reviewer) && state.reviewerValid {
        reply := Finish(hold.envelope, verdict.value, Model, Some(hold.reviewer), stillValid);
      } else {
        reply := Finish(hold.envelope, Asking(state), Unset, None, stillValid);
      }
    }

    method Decide(id: Id, principal: string, approve: bool) returns (reply: Reply)
      modifies this
      ensures Result(state, reply) == PermitProtocol.Decide(old(state), id, principal, approve)
      ensures reply.Done? ==> id in state.rows && state.rows[id].status == (if approve then ApprovedOnce else Blocked)
      ensures DecideLaw(old(state), id, principal, approve, state, reply)
    {
      DecideLawful(state, id, principal, approve);
      if id !in state.rows {
        return Rejected;
      }
      var row := state.rows[id];
      if row.envelope.principal != principal || row.status != NeedsUserStatus || row.expires < state.clock {
        return Rejected;
      }
      row := row.(status := if approve then ApprovedOnce else Blocked, source := Human);
      row := row.(decision := if approve then Allow else Block);
      state := state.(rows := state.rows[id := row]);
      return Done;
    }

    method Invalidate(grant: string, session: string)
      modifies this
      ensures state == PermitProtocol.Invalidate(old(state), grant, session)
      ensures forall id :: id in state.rows && session != "" && state.rows[id].envelope.session == session ==> Settled(state.rows[id].status) || state.rows[id].status == Invalidated
      ensures InvalidateLaw(old(state), grant, session, state)
    {
      InvalidateLawful(state, grant, session);
      WithdrawAll(grant, session);
    }

    /** Walks every stored row, in any order. */
    method WithdrawAll(grant: string, session: string)
      modifies this
      ensures state == PermitProtocol.Invalidate(old(state), grant, session)
    {
      var pending := state.rows.Keys;
      while pending != {}
        invariant pending <= old(state).rows.Keys && state == old(state).(rows := state.rows)
        invariant Halfway(old(state).rows, state.rows, pending, grant, session)
        decreases pending
      {
        var id :| id in pending;
        pending := pending - {id};
        Withdraw(id, grant, session);
      }
    }

    method Withdraw(id: string, grant: string, session: string)
      requires id in state.rows
      modifies this
      ensures state == old(state).(rows := old(state).rows[id := Withdrawn(old(state).rows[id], grant, session)])
    {
      var row := state.rows[id];
      if (grant != "" && row.envelope.grant == grant) || (session != "" && row.envelope.session == session) {
        if !Settled(row.status) { row := row.(status := Invalidated); }
      }
      state := state.(rows := state.rows[id := row]);
    }

    method BeginExecute(e: Envelope, permit: nat, valid: bool) returns (reply: Reply)
      modifies this
      ensures Result(state, reply) == PermitProtocol.BeginExecute(old(state), e, permit, valid)
      ensures reply.Pending? ==> e.id in old(state).rows && old(state).rows[e.id].status == Permitted && e.id in state.rows && state.rows[e.id].status == Executing
      ensures BeginExecuteLaw(old(state), e, permit, valid, state, reply)
    {
      BeginExecuteLawful(state, e, permit, valid);
      if e.id in state.locks {
        return Busy;
      }
      if e.id !in state.rows {
        return Rejected;
      }
      var row := state.rows[e.id];
      if row.envelope != e || row.status != Permitted || row.expires <= state.clock || row.permit != Some(permit) || !valid {
        return Rejected;
      }
      var stands := CheckReviewer(row);
      if !stands {
        return ReviewRequired(state.rows[e.id]);
      }
      row := row.(status := Executing, permit := None);
      Write(row);
      state := state.(locks := state.locks[e.id := Operating(row)]);
      return Pending;
    }

    method EndExecute(id: Id, success: bool) returns (reply: Reply)
      modifies this
      ensures Result(state, reply) == PermitProtocol.EndExecute(old(state), id, success)
      ensures reply.Done? ==> id !in state.locks && id in state.rows && state.rows[id].status == (if success then Completed else UnknownOutcome)
      ensures EndExecuteLaw(old(state), id, success, state, reply)
    {
      EndExecuteLawful(state, id, success);
      if id !in state.locks || !state.locks[id].Operating? {
        return Busy;
      }
      var row := state.locks[id].row;
      row := row.(status := if success then Completed else UnknownOutcome);
      state := state.(rows := state.rows[id := row]);
      state := state.(locks := state.locks - {id});
      return Done;
    }

    method ConsumeExternal(e: Envelope, permit: nat, valid: bool) returns (reply: Reply)
      modifies this
      ensures Result(state, reply) == PermitProtocol.ConsumeExternal(old(state), e, permit, valid)
      ensures reply.Done? ==> e.id in old(state).rows && old(state).rows[e.id].status == Permitted && e.id in state.rows && state.rows[e.id].status == Executing
      ensures ConsumeExternalLaw(old(state), e, permit, valid, state, reply)
    {
      ConsumeExternalLawful(state, e, permit, valid);
      if e.id in state.locks {
        return Busy;
      }
      if e.id !in state.rows {
        return Rejected;
      }
      var row := state.rows[e.id];
      if row.envelope != e || row.status != Permitted || row.expires <= state.clock || row.permit != Some(permit) || !valid {
        return Rejected;
      }
      var stands := CheckReviewer(row);
      if !stands {
        return ReviewRequired(state.rows[e.id]);
      }
      Write(row.(status := Executing, permit := None));
      return Done;
    }

    method CompleteExternal(id: Id, success: bool)
      modifies this
      ensures state == PermitProtocol.CompleteExternal(old(state), id, success)
      ensures !(id in old(state).rows && old(state).rows[id].status == Executing) ==> state == old(state)
      ensures CompleteExternalLaw(old(state), id, success, state)
    {
      CompleteExternalLawful(state, id, success);
      if id in state.rows && state.rows[id].status == Executing {
        var row := state.rows[id].(status := if success then Completed else UnknownOutcome);
        state := state.(rows := state.rows[id := row]);
      }
    }
  }
}
