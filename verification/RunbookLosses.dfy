/**
 What a run can lose: stored results, to members that outlive an aborted batch;
 and its row, with everyone's reach to its task, to the deletion of its runbook.
 */
module RunbookLosses {
  import opened Options
  import opened Runbooks
  import opened RunbookSafety
  import opened RunbookFutures

  // ---------------------------------------------------- results lost to orphans

  /** In flight at the batch at `k`, nothing spoiled. */
  ghost predicate FlyingAt(r: Run, k: nat, outcome: nat -> Outcome) {
    Consistent(r, outcome) && r.row.Some? && r.task.Flying? && r.task.index == k && !r.overwritten
  }

  lemma PassesGate(r: Run, k: nat, outcome: nat -> Outcome) returns (es: seq<Event>)
    requires Consistent(r, outcome) && r.row.Some? && (AtGate(r) || r.task.Flying?) && r.task.index == k && !r.overwritten
    ensures FlyingAt(RunAll(r, es, outcome), k, outcome) && RunAll(r, es, outcome).steps == r.steps
  {
    if r.task.Flying? {
      es := [];
    } else {
      es := ConfirmEvents();
      AfterConfirming(r, outcome);
      ForwardKeepsClean(r, outcome);
    }
  }

  lemma PassingBatch(r: Run, j: nat, k: nat, outcome: nat -> Outcome)
    requires FlyingAt(r, j, outcome) && BatchEnd(r.steps, j) == k && k < |r.steps| && Passed(k, outcome)
    ensures var next := Settled(r, {}, outcome); next.row.Some? && (AtGate(next) || next.task.Flying?) && next.task.index == k
  {
    BatchPasses(r.steps, j, k, outcome);
    assert !AnyRaised(j, k, outcome);
  }

  /** Every batch that the ones before let through is reached. */
  lemma {:induction false} ReachesBatch(steps: seq<RunStep>, k: nat, outcome: nat -> Outcome) returns (es: seq<Event>)
    requires k < |steps| && Boundary(steps, k) && Passed(k, outcome)
    ensures FlyingAt(RunAll(NewRun(steps), es, outcome), k, outcome) && RunAll(NewRun(steps), es, outcome).steps == steps
    decreases k
  {
    var before: seq<Event>, last: seq<Event>;
    if k == 0 {
      before, last := [], [Go];
      RunOne(NewRun(steps), Go, outcome);
    } else {
      var j: nat :| j < k && j < |steps| && Boundary(steps, j) && BatchEnd(steps, j) == k;
      before := ReachesBatch(steps, j, outcome);
      last := [Settle({})];
      var r := RunAll(NewRun(steps), before, outcome);
      PassingBatch(r, j, k, outcome);
      AfterSettling(r, outcome);
      SettledClean(r, {}, outcome);
    }
    RunJoins(NewRun(steps), before, last, outcome);
    RunKeepsConsistent(steps, before + last, outcome);
    var next := RunAll(NewRun(steps), before + last, outcome);
    var rest := PassesGate(next, k, outcome);
    RunJoins(NewRun(steps), before + last, rest, outcome);
    es := before + last + rest;
  }

  /** A run that ended by itself and whose results an orphan has written over. */
  ghost predicate Spoiled(steps: seq<RunStep>, es: seq<Event>, outcome: nat -> Outcome) {
    var r := RunAll(NewRun(steps), es, outcome); OnItsOwn(r) && r.overwritten
  }

  /** The first failing batch aborts, and has other members. */
  predicate Exposed(steps: seq<RunStep>, outcome: nat -> Outcome) {
    var v := Reference(steps, 0, outcome); v.error == Aborted && v.started > v.kept + 1
  }

  lemma DoomedIsExposed(steps: seq<RunStep>, k: nat, outcome: nat -> Outcome)
    requires Doomed(steps, k, outcome)
    ensures Exposed(steps, outcome)
  {
    ReferencePasses(steps, k, outcome);
  }

  lemma {:induction false} ExposedIsDoomed(steps: seq<RunStep>, k: nat, outcome: nat -> Outcome)
    requires k <= |steps| && Boundary(steps, k) && Passed(k, outcome)
    requires var v := Reference(steps, k, outcome); v.error == Aborted && v.started > v.kept + 1
    ensures exists j :: Doomed(steps, j, outcome)
    decreases |steps| - k
  {
    var b := BatchEnd(steps, k);
    if AnyRaised(k, b, outcome) {
      assert Doomed(steps, k, outcome);
    } else {
      BatchPasses(steps, k, b, outcome);
      NextBoundary(steps, k);
      ExposedIsDoomed(steps, b, outcome);
    }
  }

  /** One member cannot be spawned while another still runs, and that one publishes. */
  lemma OrphanSpoils(r: Run, k: nat, i: nat, m: nat, outcome: nat -> Outcome)
    requires FlyingAt(r, k, outcome) && i != m && k <= i < BatchEnd(r.steps, k) && k <= m < BatchEnd(r.steps, k)
    requires outcome(i).Raised?
    ensures var spoiled := Step(Step(r, Settle({m}), outcome), Publish(m, ""), outcome); OnItsOwn(spoiled) && spoiled.overwritten
  {
    assert AnyRaised(k, BatchEnd(r.steps, k), outcome);
    assert i !in {m};
  }

  lemma DoomedCanSpoil(steps: seq<RunStep>, k: nat, outcome: nat -> Outcome) returns (es: seq<Event>)
    requires Doomed(steps, k, outcome)
    ensures Spoiled(steps, es, outcome)
  {
    var before := ReachesBatch(steps, k, outcome);
    var r := RunAll(NewRun(steps), before, outcome);
    var i :| k <= i < BatchEnd(steps, k) && outcome(i).Raised?;
    var m := if i == k then k + 1 else k;
    OrphanSpoils(r, k, i, m, outcome);
    RunJoins(NewRun(steps), before, [Settle({m})], outcome);
    RunOne(r, Settle({m}), outcome);
    RunJoins(NewRun(steps), before + [Settle({m})], [Publish(m, "")], outcome);
    RunOne(Step(r, Settle({m}), outcome), Publish(m, ""), outcome);
    es := before + [Settle({m})] + [Publish(m, "")];
  }

  /** Results can be written over exactly when the batch that fails first aborts and is not a single step. */
  lemma SpoilingExactly(steps: seq<RunStep>, outcome: nat -> Outcome)
    ensures (exists es :: Spoiled(steps, es, outcome)) <==> Exposed(steps, outcome)
  {
    if es :| Spoiled(steps, es, outcome) {
      RunKeepsConsistent(steps, es, outcome);
      RunKeepsSteps(steps, es, outcome);
      var k :| Doomed(steps, k, outcome);
      DoomedIsExposed(steps, k, outcome);
    }
    if Exposed(steps, outcome) {
      ExposedIsDoomed(steps, 0, outcome);
      var k :| Doomed(steps, k, outcome);
      var es := DoomedCanSpoil(steps, k, outcome);
    }
  }

  /** Two runs that ended by themselves have the same row but for where it last stood. */
  ghost predicate Agree(steps: seq<RunStep>, es: seq<Event>, fs: seq<Event>, outcome: nat -> Outcome) {
    var a, b := RunAll(NewRun(steps), es, outcome), RunAll(NewRun(steps), fs, outcome);
    OnItsOwn(a) && OnItsOwn(b) ==>
      && StatusOf(a) == StatusOf(b) && a.started == b.started
      && (StatusOf(a) == Some(Failed) ==> ErrorOf(a) == ErrorOf(b))
      && a.row.value.results == b.row.value.results
  }

  lemma CleanRunsAgree(steps: seq<RunStep>, es: seq<Event>, fs: seq<Event>, outcome: nat -> Outcome)
    requires !Exposed(steps, outcome)
    ensures Agree(steps, es, fs, outcome)
  {
    if OnItsOwn(RunAll(NewRun(steps), es, outcome)) && OnItsOwn(RunAll(NewRun(steps), fs, outcome)) {
      InterruptionsDoNotMatter(steps, es, fs, outcome);
      SpoilingExactly(steps, outcome);
      assert !Spoiled(steps, es, outcome) && !Spoiled(steps, fs, outcome);
    }
  }

  /**
   All runs of the same steps agree in status, error, steps started and results,
   resumed or not, exactly unless the batch that fails first aborts with company.
   */
  lemma InterruptionsAgreeExactly(steps: seq<RunStep>, outcome: nat -> Outcome)
    ensures (forall es, fs :: Agree(steps, es, fs, outcome)) <==> !Exposed(steps, outcome)
  {
    if Exposed(steps, outcome) {
      ExposedIsDoomed(steps, 0, outcome);
      var k :| Doomed(steps, k, outcome);
      var spoiled := DoomedCanSpoil(steps, k, outcome);
      var clean := EveryRunbookCanEnd(steps, outcome);
      InterruptionsDoNotMatter(steps, spoiled, clean, outcome);
      assert !Agree(steps, spoiled, clean, outcome);
    } else {
      forall es, fs ensures Agree(steps, es, fs, outcome) { CleanRunsAgree(steps, es, fs, outcome); }
    }
  }

  /** An aborted batch of one step leaves exactly the results of the steps before it. */
  lemma LoneAbortKeepsResults(steps: seq<RunStep>, es: seq<Event>, outcome: nat -> Outcome)
    requires OnItsOwn(RunAll(NewRun(steps), es, outcome)) && !Exposed(steps, outcome)
    ensures RunAll(NewRun(steps), es, outcome).row.value.results == BatchResults(steps, 0, Reference(steps, 0, outcome).kept, outcome)
  {
    RunEnds(steps, es, outcome);
    SpoilingExactly(steps, outcome);
    assert !Spoiled(steps, es, outcome);
  }

  const PAIR := [RunStep("build", false, true), RunStep("lint", false, true)]

  /** Of two parallel steps the first cannot be spawned; the run has failed, then its row changes. */
  lemma OrphanRewritesTheRow(outcome: nat -> Outcome)
    requires outcome(0).Raised?
    ensures var failed := RunAll(NewRun(PAIR), [Go] + [Settle({1})], outcome);
            var later := Step(failed, Publish(1, "half done"), outcome);
            && OnItsOwn(failed) && failed.row.value.results == []
            && later.row.value == failed.row.value.(current := 1, results := [Result("lint", InProgress, "half done")])
  {
    var flying := RunAll(NewRun(PAIR), [Go], outcome);
    RunOne(NewRun(PAIR), Go, outcome);
    assert JoinEnd(PAIR, 1) == 2;
    RunJoins(NewRun(PAIR), [Go], [Settle({1})], outcome);
    RunOne(flying, Settle({1}), outcome);
    assert AnyRaised(0, 2, outcome) && 0 !in {1};
    var live: map<nat, Result> := map[1 := Result("lint", InProgress, "half done")];
    assert Shown(live, 2, 2) == [] && Shown(live, 1, 2) == [live[1]];
    assert FirstEqual(PAIR, 0, 1) == 1;
    assert map[][1 := Result("lint", InProgress, "half done")] == live;
  }

  // ----------------------------------------------- the row lost to a deletion

  /** A task goes on although its run is no longer to be found. */
  predicate Detached(r: Run) { r.row.None? && Live(r.task) }

  lemma SectionsKeepTheRow(r: Run, e: Event, outcome: nat -> Outcome)
    requires Consistent(r, outcome) && (e.Go? || e.Wake? || e.Settle?)
    ensures Step(r, e, outcome).row.None? ==> r.row.None?
    ensures Live(Step(r, e, outcome).task) ==> Live(r.task)
  {
  }

  lemma OthersKeepTheRow(r: Run, e: Event, outcome: nat -> Outcome)
    requires Consistent(r, outcome) && !e.DeleteRunbook?
    ensures Step(r, e, outcome).row.None? ==> r.row.None? && (Live(Step(r, e, outcome).task) ==> Live(r.task))
  {
    if e.Go? || e.Wake? || e.Settle? { SectionsKeepTheRow(r, e, outcome); }
  }

  /** Deleting the runbook of a run in flight detaches it, and nothing else does. */
  lemma DetachedExactly(r: Run, e: Event, outcome: nat -> Outcome)
    requires Consistent(r, outcome) && !Detached(r)
    ensures Detached(Step(r, e, outcome)) <==>
            e.DeleteRunbook? && (r.task.Scheduled? || r.task.Waiting? || r.task.Flying?)
  {
    if !e.DeleteRunbook? { OthersKeepTheRow(r, e, outcome); }
  }

  /** A cancelled run has no task left, exactly unless it is detached. */
  lemma CancelStopsExactly(r: Run, outcome: nat -> Outcome)
    requires Consistent(r, outcome)
    ensures Live(Step(r, Cancel, outcome).task) <==> Detached(r)
  {
  }

  /** Neither confirming nor cancelling reaches a detached run. */
  lemma DetachedIsOutOfReach(r: Run, outcome: nat -> Outcome)
    requires Detached(r)
    ensures Step(r, Confirm, outcome) == r && Step(r, Cancel, outcome) == r
  {
  }

  /** A detached run waiting at its gate waits until the host goes. */
  lemma {:induction false} DetachedGateStaysShut(r: Run, es: seq<Event>, outcome: nat -> Outcome)
    requires Detached(r) && AtGate(r) && Restart !in es
    ensures var r' := RunAll(r, es, outcome);
            Detached(r') && r'.task == r.task && r'.gate == r.gate && r'.started == r.started
  {
    if es != [] {
      assert es[|es| - 1] in es && forall e :: e in es[..|es| - 1] ==> e in es;
      DetachedGateStaysShut(r, es[..|es| - 1], outcome);
    }
  }

  predicate NoGateFrom(steps: seq<RunStep>, k: nat) { forall i :: k <= i < |steps| ==> !steps[i].confirm }

  lemma DetachedStep(r: Run, outcome: nat -> Outcome)
    requires Consistent(r, outcome) && r.row.None? && r.task.Flying? && NoGateFrom(r.steps, BatchEnd(r.steps, r.task.index))
    ensures var next, b := Settled(r, {}, outcome), BatchEnd(r.steps, r.task.index);
            && next.row.None? && next.steps == r.steps
            && (next.task.NoTask? || (next.task.Flying? && next.task.index == b))
            && (next.task.NoTask? ==> |next.started| == Reference(r.steps, r.task.index, outcome).started)
  {
    var a, b := r.task.index, BatchEnd(r.steps, r.task.index);
    if !AnyRaised(a, b, outcome) { BatchPasses(r.steps, a, b, outcome); }
  }

  /** With no gate ahead, a detached run launches every step the reference would. */
  lemma {:induction false} DetachedRunsOn(r: Run, outcome: nat -> Outcome) returns (es: seq<Event>)
    requires Consistent(r, outcome) && r.row.None? && r.task.Flying? && NoGateFrom(r.steps, BatchEnd(r.steps, r.task.index))
    ensures var r' := RunAll(r, es, outcome);
            r'.row.None? && r'.task.NoTask? && |r'.started| == Reference(r.steps, 0, outcome).started
    decreases |r.steps| - r.task.index
  {
    var next := RunAll(r, [Settle({})], outcome);
    AfterSettling(r, outcome);
    DetachedStep(r, outcome);
    ReferencePasses(r.steps, r.task.index, outcome);
    if next.task.NoTask? {
      es := [Settle({})];
    } else {
      var rest := DetachedRunsOn(next, outcome);
      RunJoins(r, [Settle({})], rest, outcome);
      es := [Settle({})] + rest;
    }
  }

  const TWO := [RunStep("migrate", false, false), RunStep("deploy", false, false)]

  /** Deleted and cancelled before it even began, a run launches both its steps. */
  lemma DeletedRunGoesOn(outcome: nat -> Outcome)
    requires outcome(0) == Exited(true, "")
    ensures var r := Step(Step(Step(Step(NewRun(TWO), DeleteRunbook, outcome), Cancel, outcome), Go, outcome), Settle({}), outcome);
            Detached(r) && r.started == [0, 1] && Step(r, Cancel, outcome) == r
  {
    assert Indexes(0, 1) == [0] && Indexes(1, 2) == [1];
    assert !AnyRaised(0, 1, outcome);
    var batch := BatchResults(TWO, 0, 1, outcome);
    assert batch == [Result("migrate", Succeeded, "")] && batch[1..] == [];
    assert FirstBroken(batch[1..]).None?;
  }
}
