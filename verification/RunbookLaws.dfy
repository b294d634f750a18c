/**
 What each call and each stretch of a run does to its row, its task and its gate,
 and what is kept of a run that is cancelled.
 */
module RunbookLaws {
  import opened Options
  import opened Runbooks
  import opened RunbookSafety

  predicate Says(r: Run, status: Status) { r.row.Some? && r.row.value.status == status }

  // ------------------------------------------------------------ cancelling

  /** Cancelling ends a run that is not over: the results of the batches done stay, nothing more starts. */
  predicate CancelLaw(r: Run, r': Run) {
    if r.row.None? || Says(r, Completed) || Says(r, Failed) || Says(r, Cancelled) then r' == r
    else
      var busy := r.task.Waiting? || r.task.Flying?;
      && r' == r.(row := r'.row, task := NoTask, gate := if busy then None else r.gate)
      && r'.row == Some(r.row.value.(status := Cancelled, error := ByUser,
           results := if busy then r.task.results else r.row.value.results,
           current := if busy then |r.task.results| - 1 else r.row.value.current))
  }

  lemma CancelLawful(r: Run)
    ensures CancelLaw(r, Withdrawn(r))
  {
  }

  /** A cancelled run keeps exactly the results of the whole batches that passed before. */
  lemma CancelKeepsResults(r: Run, outcome: nat -> Outcome)
    requires Consistent(r, outcome) && r.row.Some? && !Final(r.row.value.status)
    ensures var r' := Withdrawn(r);
      && Says(r', Cancelled) && !Live(r'.task) && r'.started == r.started
      && var kept := r'.row.value.results;
      && kept == BatchResults(r.steps, 0, |kept|, outcome) && Passed(|kept|, outcome) && Boundary(r.steps, |kept|)
      && |kept| == if r.task.Flying? then r.task.index else |r.started|
  {
    var kept := Withdrawn(r).row.value.results;
    SameResults(kept, |kept|, r.steps, outcome);
  }

  /** In every reachable state a row that says cancelled has such results, whatever happened since. */
  lemma CancelledRowsStand(steps: seq<RunStep>, es: seq<Event>, outcome: nat -> Outcome)
    requires Says(RunAll(NewRun(steps), es, outcome), Cancelled)
    ensures var kept := RunAll(NewRun(steps), es, outcome).row.value.results;
      |kept| <= |steps| && kept == BatchResults(steps, 0, |kept|, outcome) && Passed(|kept|, outcome) && Boundary(steps, |kept|)
  {
    RunKeepsConsistent(steps, es, outcome);
    RunKeepsSteps(steps, es, outcome);
    var kept := RunAll(NewRun(steps), es, outcome).row.value.results;
    SameResults(kept, |kept|, steps, outcome);
  }

  // ----------------------------------------------------------- confirming

  /** A confirmation opens the gate; with no task to go through it, it begins one from the run's own snapshot. */
  predicate ConfirmLaw(r: Run, r': Run) {
    if !Says(r, Awaiting) then r' == r
    else
      var row := r.row.value;
      && r'.row == Some(row.(status := Running)) && r'.started == r.started && r'.overwritten == r.overwritten && r'.runbook == r.runbook
      && r'.confirmed == r.confirmed + (if row.current >= 0 then [row.current] else [])
      && (r.gate.Some? ==> r'.gate == Some(true) && r'.task == r.task && r'.steps == r.steps)
      && (r.gate.None? ==> r'.gate.None?)
      && (r.gate.None? && (Live(r.task) || r.runbook.None?) ==> r'.task == r.task && r'.steps == r.steps)
      && (r.gate.None? && !Live(r.task) && r.runbook.Some? ==>
            && r'.task == Scheduled(if row.current < 0 then 0 else row.current, row.results, row.current)
            && r'.steps == (if row.steps == [] then r.runbook.value else row.steps))
  }

  lemma ConfirmLawful(r: Run)
    ensures ConfirmLaw(r, Confirmed(r))
  {
  }

  /** A new host has no tasks and no gates; a run found running has failed, with what it had published. */
  predicate RestartLaw(r: Run, r': Run) {
    && r' == r.(task := NoTask, gate := None, row := r'.row)
    && (Says(r, Running) ==> r'.row == Some(r.row.value.(status := Failed, error := HostRestarted)))
    && (!Says(r, Running) ==> r'.row == r.row)
  }

  lemma RestartLawful(r: Run)
    ensures RestartLaw(r, Restarted(r))
  {
  }

  // ---------------------------------------------------- stretches of the task

  /** The row, while it is there, has these columns, and its own steps. */
  predicate Shows(r: Run, r': Run, status: Status, current: int, results: seq<Result>, error: Reason) {
    r'.row == if r.row.Some? then Some(Row(r.row.value.steps, status, current, results, error)) else None
  }

  predicate Ended(r: Run, r': Run, status: Status, results: seq<Result>, error: Reason) {
    && r' == r.(row := r'.row, task := NoTask, gate := None)
    && Shows(r, r', status, |results| - 1, results, error)
  }

  /** The steps of the batch from `index` are under way, after those started before. */
  ghost predicate TakesOff(r: Run, r': Run, index: nat, results: seq<Result>, skip: int) {
    && index < |r.steps|
    && r' == r.(task := Flying(index, results, skip, map[]), started := r'.started)
    && r'.started == r.started + Indexes(index, BatchEnd(r.steps, index))
  }

  predicate Gated(r: Run, index: nat, skip: int) { index < |r.steps| && r.steps[index].confirm && index != skip }

  /** At the end the run is completed, before a gate it waits, otherwise its next batch takes off. */
  ghost predicate AdvanceLaw(r: Run, index: nat, results: seq<Result>, skip: int, r': Run) {
    && (index >= |r.steps| ==> Ended(r, r', Completed, results, NoError))
    && (Gated(r, index, skip) ==>
          && r' == r.(row := r'.row, task := Waiting(index, results, skip), gate := r'.gate)
          && Shows(r, r', Awaiting, index, results, ErrorOf(r))
          && r'.gate == (if r.gate.Some? then r.gate else Some(false)))
    && (index < |r.steps| && !Gated(r, index, skip) ==> TakesOff(r, r', index, results, skip))
  }

  lemma AdvanceLawful(r: Run, index: nat, results: seq<Result>, skip: int)
    ensures AdvanceLaw(r, index, results, skip, Advance(r, index, results, skip))
  {
  }

  /** Through the gate if the row still says running; otherwise it was cancelled, or is gone. */
  ghost predicate WakeLaw(r: Run, r': Run)
    requires r.task.Waiting?
  {
    if !Says(r, Running) then Ended(r, r', Cancelled, r.task.results, ByUser)
    else
      && r'.gate == Some(false)
      && (r.task.index < |r.steps| ==> TakesOff(r.(gate := Some(false)), r', r.task.index, r.task.results, r.task.skip))
      && (r.task.index >= |r.steps| ==> r' == r.(gate := Some(false)))
  }

  lemma WakeLawful(r: Run)
    requires r.task.Waiting?
    ensures WakeLaw(r, Woken(r))
  {
  }

  /** The first of them that did not succeed. */
  ghost predicate FirstFailure(results: seq<Result>, k: nat) {
    k < |results| && results[k].mark != Succeeded && forall i :: 0 <= i < k ==> results[i].mark == Succeeded
  }

  lemma {:induction false} FirstBrokenIs(rs: seq<Result>, k: nat)
    requires FirstFailure(rs, k)
    ensures FirstBroken(rs) == Some(rs[k].command)
  {
    if k > 0 {
      assert rs[1..][k - 1] == rs[k];
      assert forall i :: 0 <= i < k - 1 ==> rs[1..][i] == rs[i + 1];
      FirstBrokenIs(rs[1..], k - 1);
    }
  }

  predicate Aborts(r: Run, running: set<nat>, r': Run)
    requires r.task.Flying?
  {
    && Ended(r, r'.(task := NoTask), Failed, r.task.results, Aborted)
    && r'.task == (if running == {} then NoTask else Orphans(r.task.index, r.task.results, r.task.live, running))
  }

  ghost predicate Breaks(r: Run, batch: seq<Result>, r': Run)
    requires r.task.Flying?
  {
    exists k: nat :: FirstFailure(batch, k) && Ended(r, r', Failed, r.task.results + batch, StepFailed(batch[k].command))
  }

  /** The results are stored, and the run goes on behind the batch. */
  ghost predicate GoesOn(r: Run, b: nat, batch: seq<Result>, r': Run)
    requires r.task.Flying?
  {
    exists saved: Run :: saved == r.(row := saved.row)
      && Shows(r, saved, if r.row.Some? then r.row.value.status else Running, b - 1, r.task.results + batch, ErrorOf(r))
      && AdvanceLaw(saved, b, r.task.results + batch, r.task.skip, r')
  }

  predicate AllSucceeded(results: seq<Result>) { forall i :: 0 <= i < |results| ==> results[i].mark == Succeeded }

  /** A step that could not be spawned aborts the run; a failed one ends it with its results; else it goes on. */
  ghost predicate SettleLaw(r: Run, running: set<nat>, outcome: nat -> Outcome, r': Run)
    requires r.task.Flying? && r.task.index < |r.steps|
  {
    var a, b := r.task.index, BatchEnd(r.steps, r.task.index);
    var batch := BatchResults(r.steps, a, b, outcome);
    if exists i :: a <= i < b && outcome(i).Raised? then Aborts(r, running, r')
    else if AllSucceeded(batch) then GoesOn(r, b, batch, r')
    else Breaks(r, batch, r')
  }

  lemma {:induction false} SomeFailure(rs: seq<Result>) returns (k: nat)
    requires !AllSucceeded(rs)
    ensures FirstFailure(rs, k)
  {
    if rs[0].mark != Succeeded {
      k := 0;
    } else {
      k := SomeFailure(rs[1..]);
      k := k + 1;
    }
  }

  lemma BreaksLawful(r: Run, batch: seq<Result>, b: nat, r': Run)
    requires r.task.Flying? && !AllSucceeded(batch) && FirstBroken(batch).Some?
    requires r' == Finish(r.(row := Recorded(r.row, b - 1, r.task.results + batch)), Failed, r.task.results + batch, StepFailed(FirstBroken(batch).value))
    ensures Breaks(r, batch, r')
  {
    var k := SomeFailure(batch);
    FirstBrokenIs(batch, k);
  }

  lemma GoesOnLawful(r: Run, batch: seq<Result>, b: nat, r': Run)
    requires r.task.Flying?
    requires r' == Advance(r.(row := Recorded(r.row, b - 1, r.task.results + batch)), b, r.task.results + batch, r.task.skip)
    ensures GoesOn(r, b, batch, r')
  {
    AdvanceLawful(r.(row := Recorded(r.row, b - 1, r.task.results + batch)), b, r.task.results + batch, r.task.skip);
  }

  lemma SettleLawful(r: Run, running: set<nat>, outcome: nat -> Outcome)
    requires r.task.Flying? && r.task.index < |r.steps|
    ensures SettleLaw(r, running, outcome, Settled(r, running, outcome))
  {
    var a, b := r.task.index, BatchEnd(r.steps, r.task.index);
    var batch := BatchResults(r.steps, a, b, outcome);
    NoneBroken(batch);
    if !AnyRaised(a, b, outcome) {
      if AllSucceeded(batch) { GoesOnLawful(r, batch, b, Settled(r, running, outcome)); }
      else { BreaksLawful(r, batch, b, Settled(r, running, outcome)); }
    }
  }

  // ------------------------------------------------------------- progress

  /** These are the members with progress, in the order of the list. */
  ghost predicate Listed(keys: seq<nat>, live: map<nat, Result>, a: nat, b: nat) {
    && (forall i :: 0 <= i < |keys| ==> a <= keys[i] < b && keys[i] in live)
    && (forall i, j :: 0 <= i < j < |keys| ==> keys[i] < keys[j])
    && (forall k :: a <= k < b && k in live ==> k in keys)
  }

  ghost predicate ShowsThem(shown: seq<Result>, keys: seq<nat>, live: map<nat, Result>) {
    |shown| == |keys| && forall i :: 0 <= i < |keys| ==> keys[i] in live && shown[i] == live[keys[i]]
  }

  lemma ListedFrom(rest: seq<nat>, live: map<nat, Result>, a: nat, b: nat)
    requires a < b && Listed(rest, live, a + 1, b)
    ensures Listed(if a in live then [a] + rest else rest, live, a, b)
  {
    var keys := if a in live then [a] + rest else rest;
    assert forall k :: k in rest ==> k in keys;
    assert a in live ==> keys[0] == a;
  }

  lemma ShowsFrom(shown: seq<Result>, rest: seq<nat>, live: map<nat, Result>, a: nat)
    requires ShowsThem(shown, rest, live)
    ensures a in live ==> ShowsThem([live[a]] + shown, [a] + rest, live)
  {
  }

  lemma {:induction false} ShownInOrder(live: map<nat, Result>, a: nat, b: nat) returns (keys: seq<nat>)
    ensures Listed(keys, live, a, b) && ShowsThem(Shown(live, a, b), keys, live)
    decreases b - a
  {
    if a >= b {
      keys := [];
    } else {
      var rest := ShownInOrder(live, a + 1, b);
      ListedFrom(rest, live, a, b);
      ShowsFrom(Shown(live, a + 1, b), rest, live, a);
      keys := if a in live then [a] + rest else rest;
    }
  }

  /** What a member prints is filed under the first equal step, and the row shows everybody's progress after the results so far. */
  ghost predicate PublishLaw(r: Run, member: nat, output: string, r': Run) {
    var mine := r.task.Flying? || (r.task.Orphans? && member in r.task.running);
    if !mine || r.task.index >= |r.steps| || !(r.task.index <= member < if r.task.Flying? then BatchEnd(r.steps, r.task.index) else |r.steps|)
    then r' == r
    else
      exists key: nat, keys: seq<nat>, shown: seq<Result> ::
        && r.task.index <= key <= member && r.steps[key] == r.steps[member]
        && (forall i :: r.task.index <= i < key ==> r.steps[i] != r.steps[member])
        && r'.task == r.task.(live := r.task.live[key := Result(r.steps[member].command, InProgress, output)])
        && r' == r.(task := r'.task, row := r'.row, overwritten := r'.overwritten)
        && (r'.overwritten <==> r.overwritten || (r.task.Orphans? && r.row.Some?))
        && Listed(keys, r'.task.live, r.task.index, BatchEnd(r.steps, r.task.index)) && ShowsThem(shown, keys, r'.task.live)
        && r'.row == (if r.row.None? then None else Some(r.row.value.(current := key, results := r.task.results + shown)))
  }

  lemma {:induction false} FirstEqualIsFirst(steps: seq<RunStep>, a: nat, member: nat)
    requires a <= member < |steps|
    ensures forall i :: a <= i < FirstEqual(steps, a, member) ==> steps[i] != steps[member]
    decreases member - a
  {
    if steps[a] != steps[member] { FirstEqualIsFirst(steps, a + 1, member); }
  }

  lemma PublishLawful(r: Run, member: nat, output: string)
    ensures PublishLaw(r, member, output, Published(r, member, output))
  {
    if Publishes(r, member) {
      FirstEqualIsFirst(r.steps, r.task.index, member);
      var r' := Published(r, member, output);
      var keys := ShownInOrder(r'.task.live, r.task.index, BatchEnd(r.steps, r.task.index));
    }
  }

  // --------------------------------------------------------------- every event

  /** A batch may settle once all its steps exited, or one was not spawned while others may go on. */
  ghost predicate Settles(r: Run, running: set<nat>, outcome: nat -> Outcome) {
    && r.task.Flying? && r.task.index < |r.steps|
    && var a, b := r.task.index, BatchEnd(r.steps, r.task.index);
       if exists i :: a <= i < b && outcome(i).Raised? then
         (forall m :: m in running ==> a <= m < b) && exists i :: a <= i < b && i !in running && outcome(i).Raised?
       else running == {}
  }

  ghost predicate EventLaw(r: Run, e: Event, outcome: nat -> Outcome, r': Run) {
    match e
    case Go => if r.task.Scheduled? then AdvanceLaw(r, r.task.index, r.task.results, r.task.skip, r') else r' == r
    case Wake => if r.task.Waiting? && r.gate == Some(true) then WakeLaw(r, r') else r' == r
    case Settle(running) => if Settles(r, running, outcome) then SettleLaw(r, running, outcome, r') else r' == r
    case Publish(member, output) => PublishLaw(r, member, output, r')
    case MemberEnds(member) =>
      if !r.task.Orphans? then r' == r
      else r' == r.(task := if forall m :: m in r.task.running ==> m == member then NoTask
                            else r.task.(running := r.task.running - {member}))
    case Confirm => ConfirmLaw(r, r')
    case Cancel => CancelLaw(r, r')
    case Restart => RestartLaw(r, r')
    case SaveRunbook(steps) => r' == if r.runbook.None? then r else r.(runbook := Some(steps))
    case DeleteRunbook => r' == r.(runbook := None, row := None)
  }

  /** Every event, in any state, does what the row, the task and the gate say. */
  lemma EventLawful(r: Run, e: Event, outcome: nat -> Outcome)
    ensures EventLaw(r, e, outcome, Step(r, e, outcome))
  {
    match e
    case Go => if r.task.Scheduled? { AdvanceLawful(r, r.task.index, r.task.results, r.task.skip); }
    case Wake => if r.task.Waiting? { WakeLawful(r); }
    case Settle(running) => if Settles(r, running, outcome) { SettleLawful(r, running, outcome); }
    case Publish(member, output) => PublishLawful(r, member, output);
    case MemberEnds(member) =>
      if r.task.Orphans? { assert forall m :: m in r.task.running ==> m == member || m in r.task.running - {member}; }
    case Confirm => ConfirmLawful(r);
    case Cancel => CancelLawful(r);
    case Restart => RestartLawful(r);
    case _ =>
  }

  /** A new run has its steps' snapshot, nothing done, and a task to begin at the beginning. */
  lemma NewRunLawful(steps: seq<RunStep>)
    ensures var r := NewRun(steps);
      && r.steps == steps && r.runbook == Some(steps) && Says(r, Running) && r.row.value.steps == steps && r.row.value.results == []
      && r.task == Scheduled(0, [], -1) && r.gate.None? && r.started == [] && r.confirmed == [] && !r.overwritten
  {
  }
}
