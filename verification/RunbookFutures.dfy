/**
 What can still become of a run: it can always be brought to its end, and a
 restart at a gate changes no future.
 */
module RunbookFutures {
  import opened Options
  import opened Runbooks
  import opened RunbookSafety

  // ------------------------------------------------------------ reaching an end

  lemma {:induction false} RunJoins(r: Run, es: seq<Event>, fs: seq<Event>, outcome: nat -> Outcome)
    ensures RunAll(r, es + fs, outcome) == RunAll(RunAll(r, es, outcome), fs, outcome)
  {
    if fs == [] {
      assert es + fs == es;
    } else {
      assert (es + fs)[..|es + fs| - 1] == es + fs[..|fs| - 1];
      RunJoins(r, es, fs[..|fs| - 1], outcome);
    }
  }

  lemma RunOne(r: Run, e: Event, outcome: nat -> Outcome)
    ensures RunAll(r, [e], outcome) == Step(r, e, outcome)
  {
    assert [e][..0] == [];
    assert RunAll(r, [], outcome) == r;
  }

  predicate AtGate(r: Run) { r.task.Waiting? && !Open(r.gate) }

  predicate GoesOn(r: Run, next: Run, past: int) {
    && next.steps == r.steps && (next.row.Some? <==> r.row.Some?)
    && (next.row.Some? ==> OnItsOwn(next) || ((AtGate(next) || next.task.Flying?) && next.task.index > past))
  }

  lemma AdvanceGoesOn(r: Run, k: nat, results: seq<Result>, skip: int)
    requires !Open(r.gate)
    ensures GoesOn(r, Advance(r, k, results, skip), k - 1)
  {
  }

  lemma SettledGoesOn(r: Run, running: set<nat>, outcome: nat -> Outcome)
    requires r.task.Flying? && r.task.index < |r.steps| && !Open(r.gate)
    ensures GoesOn(r, Settled(r, running, outcome), r.task.index)
  {
    var b := BatchEnd(r.steps, r.task.index);
    AdvanceGoesOn(AfterBatch(r, outcome), b, r.task.results + BatchResults(r.steps, r.task.index, b, outcome), r.task.skip);
  }

  /** The batch in flight can always settle with nothing left running. */
  lemma AfterSettling(r: Run, outcome: nat -> Outcome)
    requires Consistent(r, outcome) && r.task.Flying?
    ensures var next := RunAll(r, [Settle({})], outcome);
            && Consistent(next, outcome) && GoesOn(r, next, r.task.index) && next == Settled(r, {}, outcome)
  {
    SettledGoesOn(r, {}, outcome);
    StepKeeps(r, Settle({}), outcome);
    RunOne(r, Settle({}), outcome);
    var a, b := r.task.index, BatchEnd(r.steps, r.task.index);
    if AnyRaised(a, b, outcome) {
      var i :| a <= i < b && outcome(i).Raised?;
      assert i !in {};
    }
  }

  function ConfirmEvents(): seq<Event> { [Confirm] + [Wake] }

  lemma ConfirmsToFlight(r: Run, outcome: nat -> Outcome)
    requires Consistent(r, outcome) && AtGate(r) && r.row.Some?
    ensures var next := ConfirmNow(r, outcome); next.task.Flying? && next.task.index == r.task.index && next.row.Some? && next.steps == r.steps
  {
  }

  lemma AfterConfirming(r: Run, outcome: nat -> Outcome)
    requires Consistent(r, outcome) && AtGate(r) && r.row.Some?
    ensures var next := RunAll(r, ConfirmEvents(), outcome);
            && Consistent(next, outcome) && next.steps == r.steps && next.row.Some?
            && next.task.Flying? && next.task.index == r.task.index
  {
    ConfirmsToFlight(r, outcome);
    ConfirmNowKeeps(r, outcome);
    RunJoins(r, [Confirm], [Wake], outcome);
    RunOne(r, Confirm, outcome);
    RunOne(Step(r, Confirm, outcome), Wake, outcome);
  }

  function ForwardEvents(r: Run): seq<Event> { if r.task.Flying? then [Settle({})] else ConfirmEvents() }

  /** From any gate or flying batch, settling and confirming is enough to reach an end. */
  lemma {:induction false} ReachesAnEnd(r: Run, outcome: nat -> Outcome) returns (es: seq<Event>)
    requires Consistent(r, outcome) && r.row.Some? && (AtGate(r) || r.task.Flying?)
    ensures OnItsOwn(RunAll(r, es, outcome)) && RunAll(r, es, outcome).overwritten == r.overwritten
    decreases |r.steps| - r.task.index, AtGate(r)
  {
    var first := ForwardEvents(r);
    if r.task.Flying? { AfterSettling(r, outcome); } else { AfterConfirming(r, outcome); }
    var next := RunAll(r, first, outcome);
    ForwardKeepsClean(r, outcome);
    if OnItsOwn(next) {
      es := first;
    } else {
      var rest := ReachesAnEnd(next, outcome);
      RunJoins(r, first, rest, outcome);
      es := first + rest;
    }
  }

  lemma ForwardKeepsClean(r: Run, outcome: nat -> Outcome)
    requires Consistent(r, outcome) && r.row.Some? && (AtGate(r) || r.task.Flying?)
    ensures RunAll(r, ForwardEvents(r), outcome).overwritten == r.overwritten
  {
    if r.task.Flying? {
      AfterSettling(r, outcome);
      SettledClean(r, {}, outcome);
    } else {
      RunJoins(r, [Confirm], [Wake], outcome);
      RunOne(r, Confirm, outcome);
      RunOne(Step(r, Confirm, outcome), Wake, outcome);
    }
  }

  lemma SettledClean(r: Run, running: set<nat>, outcome: nat -> Outcome)
    requires r.task.Flying? && r.task.index < |r.steps|
    ensures Settled(r, running, outcome).overwritten == r.overwritten
  {
  }

  /** Every list of steps, under every outcome, has a run that ends by itself, its results as kept. */
  lemma EveryRunbookCanEnd(steps: seq<RunStep>, outcome: nat -> Outcome) returns (es: seq<Event>)
    ensures OnItsOwn(RunAll(NewRun(steps), es, outcome)) && !RunAll(NewRun(steps), es, outcome).overwritten
  {
    var next := RunAll(NewRun(steps), [Go], outcome);
    RunOne(NewRun(steps), Go, outcome);
    AdvanceGoesOn(NewRun(steps), 0, [], -1);
    if OnItsOwn(next) {
      es := [Go];
    } else {
      RunKeepsConsistent(steps, [Go], outcome);
      var rest := ReachesAnEnd(next, outcome);
      RunJoins(NewRun(steps), [Go], rest, outcome);
      es := [Go] + rest;
    }
  }

  // ---------------------------------------------------- restarting at a gate

  predicate TwinTasks(s: Task, t: Task) {
    match s
    case NoTask => t.NoTask?
    case Scheduled(k, results, skip) => t.Scheduled? && t.index == k && t.results == results && (t.skip == k <==> skip == k)
    case Waiting(k, results, _) => t.Waiting? && t.index == k && t.results == results
    case Flying(k, results, _, live) => t.Flying? && t.index == k && t.results == results && t.live == live
    case Orphans(_, _, _, _) => t == s
  }

  /** Two runs that differ only in leftovers no later event can see. */
  predicate Twins(a: Run, b: Run) {
    && a.steps == b.steps && a.row == b.row && a.runbook == b.runbook
    && a.started == b.started && a.confirmed == b.confirmed && a.overwritten == b.overwritten
    && TwinTasks(a.task, b.task) && (a.task.Waiting? ==> a.gate == b.gate)
  }

  lemma AdvanceTwins(a: Run, b: Run, k: nat, results: seq<Result>, skip: int, skip': int)
    requires Twins(a, b) && !Open(a.gate) && !Open(b.gate) && (skip == k <==> skip' == k)
    ensures Twins(Advance(a, k, results, skip), Advance(b, k, results, skip'))
  {
  }

  lemma AbortTwins(a: Run, b: Run, running: set<nat>)
    requires Twins(a, b) && a.task.Flying?
    ensures Twins(AbortedBatch(a, running), AbortedBatch(b, running))
  {
  }

  lemma SettledTwins(a: Run, b: Run, running: set<nat>, outcome: nat -> Outcome)
    requires Twins(a, b) && a.task.Flying? && Consistent(a, outcome) && Consistent(b, outcome)
    ensures Twins(Settled(a, running, outcome), Settled(b, running, outcome))
  {
    var k, end := a.task.index, BatchEnd(a.steps, a.task.index);
    if AnyRaised(k, end, outcome) {
      AbortTwins(a, b, running);
    } else {
      var x, y := AfterBatch(a, outcome), AfterBatch(b, outcome);
      if FirstBroken(BatchResults(a.steps, k, end, outcome)).None? {
        AdvanceTwins(x, y, end, a.task.results + BatchResults(a.steps, k, end, outcome), a.task.skip, b.task.skip);
      }
    }
  }

  lemma PublishTwins(a: Run, b: Run, member: nat, output: string)
    requires Twins(a, b)
    ensures Twins(Published(a, member, output), Published(b, member, output))
  {
  }

  lemma RequestTwins(a: Run, b: Run, e: Event, outcome: nat -> Outcome)
    requires Twins(a, b) && Consistent(a, outcome) && Consistent(b, outcome)
    requires e.Confirm? || e.Cancel? || e.Restart?
    ensures Twins(Step(a, e, outcome), Step(b, e, outcome))
  {
  }

  lemma CallTwins(a: Run, b: Run, e: Event, outcome: nat -> Outcome)
    requires Twins(a, b) && Consistent(a, outcome) && Consistent(b, outcome)
    requires !e.Go? && !e.Settle? && !e.Publish?
    ensures Twins(Step(a, e, outcome), Step(b, e, outcome))
  {
    if e.Confirm? || e.Cancel? || e.Restart? { RequestTwins(a, b, e, outcome); }
  }

  lemma SectionTwins(a: Run, b: Run, e: Event, outcome: nat -> Outcome)
    requires Twins(a, b) && Consistent(a, outcome) && Consistent(b, outcome) && (e.Go? || e.Settle?)
    ensures Twins(Step(a, e, outcome), Step(b, e, outcome))
  {
    if e.Go? && a.task.Scheduled? { AdvanceTwins(a, b, a.task.index, a.task.results, a.task.skip, b.task.skip); }
    if e.Settle? && a.task.Flying? { SettledTwins(a, b, e.running, outcome); }
  }

  lemma StepTwins(a: Run, b: Run, e: Event, outcome: nat -> Outcome)
    requires Twins(a, b) && Consistent(a, outcome) && Consistent(b, outcome)
    ensures Twins(Step(a, e, outcome), Step(b, e, outcome))
  {
    if e.Go? || e.Settle? { SectionTwins(a, b, e, outcome); }
    else if e.Publish? { PublishTwins(a, b, e.member, e.output); }
    else { CallTwins(a, b, e, outcome); }
  }

  lemma {:induction false} RunTwins(a: Run, b: Run, es: seq<Event>, outcome: nat -> Outcome)
    requires Twins(a, b) && Consistent(a, outcome) && Consistent(b, outcome)
    ensures Twins(RunAll(a, es, outcome), RunAll(b, es, outcome))
    ensures Consistent(RunAll(a, es, outcome), outcome) && Consistent(RunAll(b, es, outcome), outcome)
  {
    if es != [] {
      var a', b' := RunAll(a, es[..|es| - 1], outcome), RunAll(b, es[..|es| - 1], outcome);
      RunTwins(a, b, es[..|es| - 1], outcome);
      StepTwins(a', b', es[|es| - 1], outcome);
      StepKeeps(a', es[|es| - 1], outcome);
      StepKeeps(b', es[|es| - 1], outcome);
    }
  }

  ghost function ConfirmNow(r: Run, outcome: nat -> Outcome): Run {
    Step(Step(r, Confirm, outcome), Wake, outcome)
  }

  ghost function RestartThenConfirm(r: Run, outcome: nat -> Outcome): Run {
    Step(Step(Step(r, Restart, outcome), Confirm, outcome), Go, outcome)
  }

  lemma ConfirmNowKeeps(r: Run, outcome: nat -> Outcome)
    requires Consistent(r, outcome)
    ensures Consistent(ConfirmNow(r, outcome), outcome)
  {
    StepKeeps(r, Confirm, outcome);
    StepKeeps(Step(r, Confirm, outcome), Wake, outcome);
  }

  lemma RestartThenConfirmKeeps(r: Run, outcome: nat -> Outcome)
    requires Consistent(r, outcome)
    ensures Consistent(RestartThenConfirm(r, outcome), outcome)
  {
    var back := Step(r, Restart, outcome);
    StepKeeps(r, Restart, outcome);
    StepKeeps(back, Confirm, outcome);
    StepKeeps(Step(back, Confirm, outcome), Go, outcome);
  }

  /** Both ways past the gate launch the gated batch, from the same state. */
  lemma GateMeets(r: Run, outcome: nat -> Outcome)
    requires Consistent(r, outcome) && AtGate(r) && r.row.Some?
    ensures Twins(ConfirmNow(r, outcome), RestartThenConfirm(r, outcome))
    ensures var n := ConfirmNow(r, outcome); n.task.Flying? && n.task.index == r.row.value.current
  {
  }

  /** Restarting the host at a gate leaves no trace: every future is the same. */
  lemma RestartLeavesNoTrace(r: Run, es: seq<Event>, outcome: nat -> Outcome)
    requires Consistent(r, outcome) && AtGate(r) && r.row.Some?
    ensures Twins(RunAll(ConfirmNow(r, outcome), es, outcome), RunAll(RestartThenConfirm(r, outcome), es, outcome))
  {
    ConfirmNowKeeps(r, outcome);
    RestartThenConfirmKeeps(r, outcome);
    GateMeets(r, outcome);
    RunTwins(ConfirmNow(r, outcome), RestartThenConfirm(r, outcome), es, outcome);
  }
}
