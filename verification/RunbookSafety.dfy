/**
 Every run of a runbook starts its steps in order, each at most once, stops at
 the first failing batch, never passes a gate unconfirmed, and ends the same way
 however it was interrupted.
 */
module RunbookSafety {
  import opened Options
  import opened Runbooks

  // ----------------------------------------------------------------- batches

  /** A batch may begin (or the run may end) at `k`. */
  ghost predicate Boundary(steps: seq<RunStep>, k: nat)
    decreases k
  {
    k == 0 || exists j: nat :: j < k && j < |steps| && Boundary(steps, j) && BatchEnd(steps, j) == k
  }

  lemma {:induction false} JoinedSteps(steps: seq<RunStep>, k: nat)
    requires k <= |steps|
    ensures forall i :: k <= i < JoinEnd(steps, k) ==> Joins(steps[i])
    ensures JoinEnd(steps, k) < |steps| ==> !Joins(steps[JoinEnd(steps, k)])
    decreases |steps| - k
  {
    if k < |steps| && Joins(steps[k]) { JoinedSteps(steps, k + 1); }
  }

  /** A batch is one step, or a parallel step and all the ungated parallel ones right after it. */
  lemma BatchIsMaximal(steps: seq<RunStep>, k: nat)
    requires k < |steps|
    ensures var n := BatchEnd(steps, k);
            && (forall i :: k < i < n ==> steps[i].parallel && !steps[i].confirm)
            && (n > k + 1 ==> steps[k].parallel)
            && (steps[k].parallel && n < |steps| ==> !steps[n].parallel || steps[n].confirm)
  {
    if steps[k].parallel { JoinedSteps(steps, k + 1); }
  }

  lemma NextBoundary(steps: seq<RunStep>, k: nat)
    requires k < |steps| && Boundary(steps, k)
    ensures Boundary(steps, BatchEnd(steps, k))
  {
  }

  lemma {:induction false} ShownInBatch(live: map<nat, Result>, a: nat, b: nat, key: nat)
    requires a <= key < b && key in live
    ensures Shown(live, a, b) != []
    decreases b - a
  {
    if key != a { ShownInBatch(live, a + 1, b, key); }
  }

  // --------------------------------------------------------------- invariant

  /** The first `n` results are those of the first `n` steps. */
  ghost predicate Matches(results: seq<Result>, n: nat, steps: seq<RunStep>, outcome: nat -> Outcome) {
    && n <= |results| && n <= |steps|
    && (forall i :: 0 <= i < n ==> outcome(i).Exited? && results[i] == ResultOf(steps[i], outcome(i)))
  }

  ghost predicate Passed(n: nat, outcome: nat -> Outcome) {
    forall i :: 0 <= i < n ==> outcome(i).Exited? && outcome(i).ok
  }

  /** The run stands before the batch at `k`, everything before it done. */
  ghost predicate At(r: Run, k: nat, results: seq<Result>, outcome: nat -> Outcome) {
    && k <= |r.steps| && Boundary(r.steps, k) && |results| == k
    && Matches(results, k, r.steps, outcome) && Passed(k, outcome)
  }

  predicate RowSays(r: Run, status: Status) { r.row.Some? ==> r.row.value.status == status }

  /** The row is that of a run parked at `k`. */
  predicate RowParked(r: Run, k: nat, results: seq<Result>) {
    r.row.Some? ==> r.row.value.current == k && r.row.value.results == results
  }

  ghost predicate ScheduledFits(r: Run, k: nat, results: seq<Result>, skip: int, outcome: nat -> Outcome) {
    && At(r, k, results, outcome) && |r.started| == k && RowSays(r, Running) && r.gate.None?
    && skip <= k && (skip == k ==> k in r.confirmed) && (r.row.Some? ==> r.row.value.results == results)
  }

  ghost predicate WaitingFits(r: Run, k: nat, results: seq<Result>, skip: int, outcome: nat -> Outcome) {
    && At(r, k, results, outcome) && |r.started| == k && k < |r.steps| && r.steps[k].confirm && skip < k
    && r.gate.Some? && RowParked(r, k, results)
    && RowSays(r, if Open(r.gate) then Running else Awaiting) && (Open(r.gate) ==> k in r.confirmed)
  }

  ghost predicate FlyingFits(r: Run, k: nat, results: seq<Result>, skip: int, outcome: nat -> Outcome) {
    && At(r, k, results, outcome) && k < |r.steps| && |r.started| == BatchEnd(r.steps, k)
    && RowSays(r, Running) && skip <= k && !Open(r.gate)
  }

  ghost predicate OrphansFit(r: Run, k: nat, results: seq<Result>, running: set<nat>, outcome: nat -> Outcome) {
    && At(r, k, results, outcome) && k < |r.steps| && |r.started| == BatchEnd(r.steps, k) && r.gate.None?
    && RowSays(r, Failed) && ErrorOf(r) == (if r.row.Some? then Aborted else NoError)
    && running != {} && (forall m :: m in running ==> k <= m < BatchEnd(r.steps, k)) && BatchEnd(r.steps, k) > k + 1
    && AnyRaised(k, BatchEnd(r.steps, k), outcome)
    && (r.row.Some? ==> BrokeAt(r, k, outcome))
  }

  /** A run without a task is over, or parked where a confirmation resumes it. */
  ghost predicate IdleFits(r: Run, outcome: nat -> Outcome) {
    && r.gate.None? && !RowSaysRunning(r)
    && (StatusOf(r) == Some(Awaiting) ==>
          var k := r.row.value.current;
          && k >= 0 && At(r, k, r.row.value.results, outcome) && |r.started| == k
          && k < |r.steps| && r.steps[k].confirm)
  }

  predicate RowSaysRunning(r: Run) { StatusOf(r) == Some(Running) }

  ghost predicate TaskFits(r: Run, outcome: nat -> Outcome) {
    match r.task
    case NoTask => IdleFits(r, outcome)
    case Scheduled(k, results, skip) => ScheduledFits(r, k, results, skip, outcome)
    case Waiting(k, results, skip) => WaitingFits(r, k, results, skip, outcome)
    case Flying(k, results, skip, _) => FlyingFits(r, k, results, skip, outcome)
    case Orphans(k, results, _, running) => OrphansFit(r, k, results, running, outcome)
  }

  /** The run ended by itself. */
  predicate OnItsOwn(r: Run) {
    r.row.Some? && (r.row.value.status == Completed || (r.row.value.status == Failed && r.row.value.error != HostRestarted))
  }

  /** The batch that broke the run begins at `k`. */
  ghost predicate BrokeAt(r: Run, k: nat, outcome: nat -> Outcome)
    requires r.row.Some?
  {
    && k < |r.steps| && Boundary(r.steps, k) && Passed(k, outcome)
    && |r.started| == BatchEnd(r.steps, k)
    && Matches(r.row.value.results, k, r.steps, outcome)
    && match r.row.value.error
       case Aborted =>
         AnyRaised(k, |r.started|, outcome) && (|r.row.value.results| == k <==> !r.overwritten)
       case StepFailed(command) =>
         && !AnyRaised(k, |r.started|, outcome) && !r.overwritten
         && |r.row.value.results| == |r.started|
         && r.row.value.results == r.row.value.results[..k] + BatchResults(r.steps, k, |r.started|, outcome)
         && FirstBroken(BatchResults(r.steps, k, |r.started|, outcome)) == Some(command)
       case _ => false
  }

  ghost predicate EndFits(r: Run, outcome: nat -> Outcome)
    requires r.row.Some?
  {
    var row := r.row.value;
    && (row.status == Completed ==>
          At(r, |r.steps|, row.results, outcome) && |r.started| == |r.steps| && !r.overwritten)
    && (row.status == Failed && row.error != HostRestarted ==> exists k :: BrokeAt(r, k, outcome))
    && (Final(row.status) ==> !Live(r.task))
    && (row.status == Cancelled ==> At(r, |row.results|, row.results, outcome))
    && (r.overwritten ==> row.status == Failed && row.error == Aborted)
  }

  /** While the row is there it has the run's steps, and its runbook is there too. */
  ghost predicate RowFits(r: Run, outcome: nat -> Outcome) {
    r.row.Some? ==> r.row.value.steps == r.steps && r.runbook.Some? && EndFits(r, outcome)
  }

  /** The batch at `k` is reached, and aborts while another of its members may be running. */
  ghost predicate Doomed(steps: seq<RunStep>, k: nat, outcome: nat -> Outcome) {
    && k < |steps| && Boundary(steps, k) && Passed(k, outcome)
    && BatchEnd(steps, k) > k + 1 && AnyRaised(k, BatchEnd(steps, k), outcome)
  }

  ghost predicate HistoryFits(r: Run) {
    && |r.started| <= |r.steps| && r.started == Indexes(0, |r.started|) && Boundary(r.steps, |r.started|)
    && (forall k :: 0 <= k < |r.started| && r.steps[k].confirm ==> k in r.confirmed)
  }

  ghost predicate Consistent(r: Run, outcome: nat -> Outcome) {
    && HistoryFits(r) && TaskFits(r, outcome) && RowFits(r, outcome)
    && (r.overwritten ==> exists k :: Doomed(r.steps, k, outcome))
  }

  // ------------------------------------------------------ segments keep it

  /** A run between two batches, its row saying so. */
  ghost predicate Between(r: Run, k: nat, results: seq<Result>, skip: int, outcome: nat -> Outcome) {
    && HistoryFits(r) && At(r, k, results, outcome) && |r.started| == k
    && RowSays(r, Running) && skip <= k && !Open(r.gate)
    && (r.row.Some? ==> r.row.value.steps == r.steps && r.runbook.Some? && !r.overwritten)
    && (r.overwritten ==> exists j :: Doomed(r.steps, j, outcome))
  }

  lemma IndexesJoin(k: nat, n: nat)
    requires k <= n
    ensures Indexes(0, k) + Indexes(k, n) == Indexes(0, n)
  {
  }

  lemma LaunchHistory(r: Run, k: nat, results: seq<Result>, skip: int)
    requires HistoryFits(r) && k < |r.steps| && |r.started| == k
    requires r.steps[k].confirm ==> k in r.confirmed
    ensures HistoryFits(Launch(r, k, results, skip))
  {
    BatchIsMaximal(r.steps, k);
    NextBoundary(r.steps, k);
    IndexesJoin(k, BatchEnd(r.steps, k));
  }

  lemma LaunchKeeps(r: Run, k: nat, results: seq<Result>, skip: int, outcome: nat -> Outcome)
    requires Between(r, k, results, skip, outcome) && k < |r.steps| && (r.steps[k].confirm ==> k in r.confirmed)
    ensures Consistent(Launch(r, k, results, skip), outcome)
  {
    LaunchHistory(r, k, results, skip);
  }

  lemma ParkKeeps(r: Run, k: nat, results: seq<Result>, skip: int, outcome: nat -> Outcome)
    requires Between(r, k, results, skip, outcome) && k < |r.steps| && r.steps[k].confirm && k != skip
    ensures Consistent(Park(r, k, results, skip), outcome)
  {
  }

  lemma CompleteKeeps(r: Run, results: seq<Result>, skip: int, outcome: nat -> Outcome)
    requires Between(r, |r.steps|, results, skip, outcome)
    ensures Consistent(Finish(r, Completed, results, NoError), outcome)
  {
  }

  lemma AdvanceKeeps(r: Run, k: nat, results: seq<Result>, skip: int, outcome: nat -> Outcome)
    requires Between(r, k, results, skip, outcome) && (skip == k ==> k in r.confirmed)
    ensures Consistent(Advance(r, k, results, skip), outcome)
  {
    if k >= |r.steps| { CompleteKeeps(r, results, skip, outcome); }
    else if r.steps[k].confirm && k != skip { ParkKeeps(r, k, results, skip, outcome); }
    else { LaunchKeeps(r, k, results, skip, outcome); }
  }

  lemma {:induction false} NoneBroken(rs: seq<Result>)
    ensures FirstBroken(rs).None? <==> forall i :: 0 <= i < |rs| ==> rs[i].mark == Succeeded
  {
    if rs != [] {
      NoneBroken(rs[1..]);
      assert forall i :: 1 <= i < |rs| ==> rs[i] == rs[1..][i - 1];
    }
  }

  lemma BatchPasses(steps: seq<RunStep>, a: nat, b: nat, outcome: nat -> Outcome)
    requires a <= b <= |steps| && Passed(a, outcome) && !AnyRaised(a, b, outcome)
    ensures FirstBroken(BatchResults(steps, a, b, outcome)).None? <==> Passed(b, outcome)
  {
    var rs := BatchResults(steps, a, b, outcome);
    NoneBroken(rs);
    if Passed(b, outcome) {
      forall i | 0 <= i < |rs| ensures rs[i].mark == Succeeded {
        assert rs[i] == ResultOf(steps[a + i], outcome(a + i));
        assert outcome(a + i).Exited? && outcome(a + i).ok;
      }
    } else {
      var i :| 0 <= i < b && !(outcome(i).Exited? && outcome(i).ok);
      var j := i - a;
      assert 0 <= j && a + j == i && rs[j] == ResultOf(steps[a + j], outcome(a + j));
    }
  }

  lemma MatchesOn(results: seq<Result>, a: nat, b: nat, steps: seq<RunStep>, outcome: nat -> Outcome)
    requires |results| == a && a <= b <= |steps| && Matches(results, a, steps, outcome) && !AnyRaised(a, b, outcome)
    ensures Matches(results + BatchResults(steps, a, b, outcome), b, steps, outcome)
  {
    var longer := results + BatchResults(steps, a, b, outcome);
    forall i | 0 <= i < b ensures outcome(i).Exited? && longer[i] == ResultOf(steps[i], outcome(i)) {
      if i >= a {
        var j := i - a;
        assert a + j == i && longer[i] == BatchResults(steps, a, b, outcome)[j];
      }
    }
  }

  lemma AbortKeeps(r: Run, running: set<nat>, outcome: nat -> Outcome)
    requires Consistent(r, outcome) && r.task.Flying?
    requires AnyRaised(r.task.index, BatchEnd(r.steps, r.task.index), outcome)
    requires MaySettle(r.task.index, BatchEnd(r.steps, r.task.index), running, outcome)
    ensures Consistent(AbortedBatch(r, running), outcome)
  {
    var k := r.task.index;
    var ended := AbortedBatch(r, running);
    if r.row.Some? { assert BrokeAt(ended, k, outcome); }
    if running != {} {
      var m :| m in running;
      var i :| k <= i < BatchEnd(r.steps, k) && i !in running && outcome(i).Raised?;
      assert m != i;
    }
  }

  function AfterBatch(r: Run, outcome: nat -> Outcome): Run
    requires r.task.Flying? && r.task.index < |r.steps|
  {
    var a, b := r.task.index, BatchEnd(r.steps, r.task.index);
    r.(row := Recorded(r.row, b - 1, r.task.results + BatchResults(r.steps, a, b, outcome)))
  }

  lemma BrokeWhen(r: Run, k: nat, before: seq<Result>, command: string, outcome: nat -> Outcome)
    requires r.row.Some? && r.row.value.error == StepFailed(command) && !r.overwritten
    requires k < |r.steps| && Boundary(r.steps, k) && Passed(k, outcome) && |r.started| == BatchEnd(r.steps, k)
    requires |before| == k && Matches(before, k, r.steps, outcome) && !AnyRaised(k, |r.started|, outcome)
    requires r.row.value.results == before + BatchResults(r.steps, k, |r.started|, outcome)
    requires FirstBroken(BatchResults(r.steps, k, |r.started|, outcome)) == Some(command)
    ensures BrokeAt(r, k, outcome)
  {
    assert r.row.value.results[..k] == before;
  }

  lemma BatchBreaks(r: Run, results: seq<Result>, command: string, outcome: nat -> Outcome)
    requires Consistent(r, outcome) && r.task.Flying?
    requires !AnyRaised(r.task.index, BatchEnd(r.steps, r.task.index), outcome)
    requires FirstBroken(BatchResults(r.steps, r.task.index, BatchEnd(r.steps, r.task.index), outcome)) == Some(command)
    requires results == r.task.results + BatchResults(r.steps, r.task.index, BatchEnd(r.steps, r.task.index), outcome)
    ensures Consistent(Finish(AfterBatch(r, outcome), Failed, results, StepFailed(command)), outcome)
  {
    if r.row.Some? {
      BrokeWhen(Finish(AfterBatch(r, outcome), Failed, results, StepFailed(command)), r.task.index, r.task.results, command, outcome);
    }
  }

  lemma BatchGoesOn(r: Run, results: seq<Result>, outcome: nat -> Outcome)
    requires Consistent(r, outcome) && r.task.Flying?
    requires !AnyRaised(r.task.index, BatchEnd(r.steps, r.task.index), outcome)
    requires FirstBroken(BatchResults(r.steps, r.task.index, BatchEnd(r.steps, r.task.index), outcome)).None?
    requires results == r.task.results + BatchResults(r.steps, r.task.index, BatchEnd(r.steps, r.task.index), outcome)
    ensures Between(AfterBatch(r, outcome), BatchEnd(r.steps, r.task.index), results, r.task.skip, outcome)
  {
    BatchPasses(r.steps, r.task.index, BatchEnd(r.steps, r.task.index), outcome);
    NextBoundary(r.steps, r.task.index);
    MatchesOn(r.task.results, r.task.index, BatchEnd(r.steps, r.task.index), r.steps, outcome);
  }

  lemma BatchSettles(r: Run, outcome: nat -> Outcome)
    requires Consistent(r, outcome) && r.task.Flying?
    requires !AnyRaised(r.task.index, BatchEnd(r.steps, r.task.index), outcome)
    ensures Consistent(Settled(r, {}, outcome), outcome)
  {
    var b := BatchEnd(r.steps, r.task.index);
    var batch := BatchResults(r.steps, r.task.index, b, outcome);
    var broken := FirstBroken(batch);
    if broken.Some? {
      BatchBreaks(r, r.task.results + batch, broken.value, outcome);
    } else {
      BatchGoesOn(r, r.task.results + batch, outcome);
      AdvanceKeeps(AfterBatch(r, outcome), b, r.task.results + batch, r.task.skip, outcome);
    }
  }

  // ---------------------------------------------------- every event keeps it

  lemma WokenKeeps(r: Run, outcome: nat -> Outcome)
    requires Consistent(r, outcome) && r.task.Waiting? && Open(r.gate)
    ensures Consistent(Woken(r), outcome)
  {
    if r.row.Some? { LaunchKeeps(r.(gate := Some(false)), r.task.index, r.task.results, r.task.skip, outcome); }
  }

  lemma GateConfirmed(r: Run, outcome: nat -> Outcome)
    requires Consistent(r, outcome) && r.task.Waiting? && StatusOf(r) == Some(Awaiting)
    ensures Consistent(Confirmed(r), outcome)
  {
  }

  lemma ParkedConfirmed(r: Run, outcome: nat -> Outcome)
    requires Consistent(r, outcome) && r.task.NoTask? && StatusOf(r) == Some(Awaiting)
    ensures Consistent(Confirmed(r), outcome)
  {
  }

  lemma ConfirmedKeeps(r: Run, outcome: nat -> Outcome)
    requires Consistent(r, outcome)
    ensures Consistent(Confirmed(r), outcome)
  {
    if StatusOf(r) == Some(Awaiting) {
      if r.task.Waiting? { GateConfirmed(r, outcome); } else { ParkedConfirmed(r, outcome); }
    }
  }

  lemma FlyingPublishes(r: Run, member: nat, output: string, outcome: nat -> Outcome)
    requires Consistent(r, outcome) && r.task.Flying?
    ensures Consistent(Published(r, member, output), outcome)
  {
  }

  lemma OrphanPublishes(r: Run, member: nat, output: string, outcome: nat -> Outcome)
    requires Consistent(r, outcome) && r.task.Orphans? && member in r.task.running
    ensures Consistent(Published(r, member, output), outcome)
  {
    var k, key := r.task.index, FirstEqual(r.steps, r.task.index, member);
    var r' := Published(r, member, output);
    ShownInBatch(r'.task.live, k, BatchEnd(r.steps, k), key);
    assert Doomed(r.steps, k, outcome);
    if r.row.Some? { assert BrokeAt(r', k, outcome); }
  }

  /** Parts of the run that its consistency does not look at may change. */
  lemma EndCarries(r: Run, r': Run, outcome: nat -> Outcome)
    requires RowFits(r, outcome) && r'.row == r.row && r'.steps == r.steps && r'.started == r.started
    requires r'.overwritten == r.overwritten && r'.runbook.Some? && (Live(r'.task) ==> Live(r.task))
    ensures RowFits(r', outcome)
  {
    if r.row.Some? && r.row.value.status == Failed && r.row.value.error != HostRestarted {
      var k :| BrokeAt(r, k, outcome);
      assert BrokeAt(r', k, outcome);
    }
  }

  lemma LastMemberEnds(r: Run, outcome: nat -> Outcome)
    requires Consistent(r, outcome) && r.task.Orphans?
    ensures Consistent(r.(task := NoTask), outcome)
  {
    if r.row.Some? { EndCarries(r, r.(task := NoTask), outcome); }
  }

  lemma SomeMemberEnds(r: Run, running: set<nat>, outcome: nat -> Outcome)
    requires Consistent(r, outcome) && r.task.Orphans? && running != {} && running <= r.task.running
    ensures Consistent(r.(task := r.task.(running := running)), outcome)
  {
    var r' := r.(task := r.task.(running := running));
    if r.row.Some? {
      EndCarries(r, r', outcome);
      assert BrokeAt(r', r.task.index, outcome);
    }
  }

  lemma MemberEndKeeps(r: Run, member: nat, outcome: nat -> Outcome)
    requires Consistent(r, outcome)
    ensures Consistent(MemberEnded(r, member), outcome)
  {
    if r.task.Orphans? {
      if r.task.running - {member} == {} { LastMemberEnds(r, outcome); }
      else { SomeMemberEnds(r, r.task.running - {member}, outcome); }
    }
  }

  lemma WithdrawnKeeps(r: Run, outcome: nat -> Outcome)
    requires Consistent(r, outcome)
    ensures Consistent(Withdrawn(r), outcome)
  {
  }

  lemma RestartedKeeps(r: Run, outcome: nat -> Outcome)
    requires Consistent(r, outcome)
    ensures Consistent(Restarted(r), outcome)
  {
    if r.row.Some? && r.row.value.status != Running { EndCarries(r, Restarted(r), outcome); }
  }

  lemma SavedKeeps(r: Run, steps: seq<RunStep>, outcome: nat -> Outcome)
    requires Consistent(r, outcome) && r.runbook.Some?
    ensures Consistent(r.(runbook := Some(steps)), outcome)
  {
    var r' := r.(runbook := Some(steps));
    EndCarries(r, r', outcome);
    if r.task.Orphans? && r.row.Some? { assert BrokeAt(r', r.task.index, outcome); }
  }

  lemma DeletedKeeps(r: Run, outcome: nat -> Outcome)
    requires Consistent(r, outcome)
    ensures Consistent(r.(runbook := None, row := None), outcome)
  {
  }

  lemma StepKeeps(r: Run, e: Event, outcome: nat -> Outcome)
    requires Consistent(r, outcome)
    ensures Consistent(Step(r, e, outcome), outcome)
  {
    match e
    case Go => if r.task.Scheduled? { AdvanceKeeps(r, r.task.index, r.task.results, r.task.skip, outcome); }
    case Wake => if r.task.Waiting? && Open(r.gate) { WokenKeeps(r, outcome); }
    case Settle(running) => SettledKeeps(r, running, outcome);
    case Publish(member, output) =>
      if r.task.Flying? { FlyingPublishes(r, member, output, outcome); }
      else if r.task.Orphans? && member in r.task.running { OrphanPublishes(r, member, output, outcome); }
    case MemberEnds(member) => MemberEndKeeps(r, member, outcome);
    case Confirm => ConfirmedKeeps(r, outcome);
    case Cancel => WithdrawnKeeps(r, outcome);
    case Restart => RestartedKeeps(r, outcome);
    case SaveRunbook(steps) => if r.runbook.Some? { SavedKeeps(r, steps, outcome); }
    case DeleteRunbook => DeletedKeeps(r, outcome);
  }

  lemma SettledKeeps(r: Run, running: set<nat>, outcome: nat -> Outcome)
    requires Consistent(r, outcome)
    ensures Consistent(Step(r, Settle(running), outcome), outcome)
  {
    if r.task.Flying? && MaySettle(r.task.index, BatchEnd(r.steps, r.task.index), running, outcome) {
      if AnyRaised(r.task.index, BatchEnd(r.steps, r.task.index), outcome) { AbortKeeps(r, running, outcome); }
      else { BatchSettles(r, outcome); }
    }
  }

  /** Whatever happens, in whatever order, every run stays consistent. */
  lemma {:induction false} RunKeepsConsistent(steps: seq<RunStep>, es: seq<Event>, outcome: nat -> Outcome)
    ensures Consistent(RunAll(NewRun(steps), es, outcome), outcome)
  {
    if es != [] {
      RunKeepsConsistent(steps, es[..|es| - 1], outcome);
      StepKeeps(RunAll(NewRun(steps), es[..|es| - 1], outcome), es[|es| - 1], outcome);
    }
  }

  // ------------------------------------------------------------ main results

  /** Steps start in order, each at most once, whole batches at a time, and gated ones only once confirmed. */
  lemma StepsStartOnceInOrder(steps: seq<RunStep>, es: seq<Event>, outcome: nat -> Outcome)
    ensures var r := RunAll(NewRun(steps), es, outcome);
            && r.steps == steps && Boundary(steps, |r.started|)
            && (forall i :: 0 <= i < |r.started| ==> r.started[i] == i)
            && (forall k :: k in r.started && steps[k].confirm ==> k in r.confirmed)
  {
    RunKeepsConsistent(steps, es, outcome);
    RunKeepsSteps(steps, es, outcome);
  }

  /** A confirmation covers exactly the next step, after all earlier ones have succeeded. */
  lemma ConfirmCoversTheNextStep(r: Run, outcome: nat -> Outcome)
    requires Consistent(r, outcome) && StatusOf(r) == Some(Awaiting)
    ensures var k := r.row.value.current;
            && 0 <= k < |r.steps| && r.steps[k].confirm && r.started == Indexes(0, k) && Passed(k, outcome)
            && r.row.value.results == BatchResults(r.steps, 0, k, outcome)
            && Confirmed(r).confirmed == r.confirmed + [k]
  {
  }

  /** A run marked running always has a task to run it, deleted runbooks and restarts notwithstanding. */
  lemma RunningHasATask(steps: seq<RunStep>, es: seq<Event>, outcome: nat -> Outcome)
    ensures var r := RunAll(NewRun(steps), es, outcome); StatusOf(r) == Some(Running) ==> Live(r.task)
  {
    RunKeepsConsistent(steps, es, outcome);
  }

  lemma OverIgnores(r: Run, e: Event, outcome: nat -> Outcome)
    requires Consistent(r, outcome) && r.row.Some? && Final(r.row.value.status)
    requires e.Go? || e.Wake? || e.Settle? || e.Confirm? || e.Cancel?
    ensures Step(r, e, outcome) == r
  {
  }

  /** A run that is over stays so: nothing more starts, and its verdict stands while its row does. */
  lemma OverIsOver(r: Run, e: Event, outcome: nat -> Outcome)
    requires Consistent(r, outcome) && r.row.Some? && Final(r.row.value.status)
    ensures var r' := Step(r, e, outcome);
            && r'.started == r.started && !Live(r'.task)
            && (r'.row.None? <==> e.DeleteRunbook?)
            && (r'.row.Some? ==> StatusOf(r') == StatusOf(r) && ErrorOf(r') == ErrorOf(r))
  {
    if e.Go? || e.Wake? || e.Settle? || e.Confirm? || e.Cancel? { OverIgnores(r, e, outcome); }
  }

  /** What an orphan's progress makes of the row. */
  function Overwrite(r: Run, member: nat, output: string): Option<Row>
    requires Publishes(r, member)
  {
    var key := FirstEqual(r.steps, r.task.index, member);
    var live := r.task.live[key := Result(r.steps[member].command, InProgress, output)];
    Recorded(r.row, key, r.task.results + Shown(live, r.task.index, BatchEnd(r.steps, r.task.index)))
  }

  /**
   The row of a run that is over changes in two ways only: its runbook is deleted,
   or a member its failed batch left running publishes something new.
   */
  lemma EndedRowChangesExactly(r: Run, e: Event, outcome: nat -> Outcome)
    requires Consistent(r, outcome) && r.row.Some? && Final(r.row.value.status)
    ensures Step(r, e, outcome).row != r.row <==>
            || e.DeleteRunbook?
            || (e.Publish? && r.task.Orphans? && e.member in r.task.running && Overwrite(r, e.member, e.output) != r.row)
  {
  }

  /** The first progress an orphan publishes always changes the row. */
  lemma FirstOverwriteChanges(r: Run, member: nat, output: string, outcome: nat -> Outcome)
    requires Consistent(r, outcome) && r.row.Some? && r.task.Orphans? && member in r.task.running && !r.overwritten
    ensures Overwrite(r, member, output) != r.row
  {
    var key := FirstEqual(r.steps, r.task.index, member);
    var live := r.task.live[key := Result(r.steps[member].command, InProgress, output)];
    ShownInBatch(live, r.task.index, BatchEnd(r.steps, r.task.index), key);
    OrphansKeepPrefix(r, r.task.index, outcome);
  }

  lemma OrphansKeepPrefix(r: Run, k: nat, outcome: nat -> Outcome)
    requires Consistent(r, outcome) && r.row.Some? && r.task.Orphans? && k == r.task.index
    ensures BrokeAt(r, k, outcome) && (!r.overwritten ==> |r.row.value.results| == k)
  {
  }

  lemma StepKeepsSteps(r: Run, e: Event, outcome: nat -> Outcome)
    requires Consistent(r, outcome)
    ensures Step(r, e, outcome).steps == r.steps
  {
    if e.Settle? && r.task.Flying? { SettleKeepsSteps(r, e.running, outcome); }
  }

  lemma SettleKeepsSteps(r: Run, running: set<nat>, outcome: nat -> Outcome)
    requires r.task.Flying? && r.task.index < |r.steps|
    ensures Settled(r, running, outcome).steps == r.steps
  {
  }

  lemma {:induction false} RunKeepsSteps(steps: seq<RunStep>, es: seq<Event>, outcome: nat -> Outcome)
    ensures RunAll(NewRun(steps), es, outcome).steps == steps
  {
    if es != [] {
      RunKeepsSteps(steps, es[..|es| - 1], outcome);
      RunKeepsConsistent(steps, es[..|es| - 1], outcome);
      StepKeepsSteps(RunAll(NewRun(steps), es[..|es| - 1], outcome), es[|es| - 1], outcome);
    }
  }

  /** How a run ends: its status and error, the steps it has started and the results it keeps. */
  datatype Verdict = Verdict(status: Status, error: Reason, started: nat, kept: nat)

  /** How a run ends when nobody interferes, from the batch at `k` on. */
  function Reference(steps: seq<RunStep>, k: nat, outcome: nat -> Outcome): (v: Verdict)
    requires k <= |steps|
    ensures v.kept <= v.started <= |steps|
    decreases |steps| - k
  {
    if k == |steps| then Verdict(Completed, NoError, k, k)
    else
      var b := BatchEnd(steps, k);
      if AnyRaised(k, b, outcome) then Verdict(Failed, Aborted, b, k)
      else
        var broken := FirstBroken(BatchResults(steps, k, b, outcome));
        if broken.Some? then Verdict(Failed, StepFailed(broken.value), b, b) else Reference(steps, b, outcome)
  }

  lemma {:induction false} ReferencePasses(steps: seq<RunStep>, k: nat, outcome: nat -> Outcome)
    requires k <= |steps| && Boundary(steps, k) && Passed(k, outcome)
    ensures Reference(steps, 0, outcome) == Reference(steps, k, outcome)
    decreases k
  {
    if k > 0 {
      var j: nat :| j < k && j < |steps| && Boundary(steps, j) && BatchEnd(steps, j) == k;
      ReferencePasses(steps, j, outcome);
      BatchPasses(steps, j, k, outcome);
    }
  }

  /**
   A run that ends by itself ends as the reference says, whatever was confirmed,
   restarted, saved or published on the way. Its row has the results the reference
   keeps exactly when no orphan has written into it.
   */
  lemma EndIsDetermined(r: Run, outcome: nat -> Outcome)
    requires Consistent(r, outcome) && OnItsOwn(r)
    ensures var v := Reference(r.steps, 0, outcome);
            && r.row.value.status == v.status && |r.started| == v.started
            && (v.status == Failed ==> r.row.value.error == v.error)
            && (r.row.value.results == BatchResults(r.steps, 0, v.kept, outcome) <==> !r.overwritten)
  {
    if r.row.value.status == Completed {
      ReferencePasses(r.steps, |r.steps|, outcome);
    } else {
      var k :| BrokeAt(r, k, outcome);
      ReferencePasses(r.steps, k, outcome);
      KeptResults(r, k, outcome);
    }
  }

  lemma KeptResults(r: Run, k: nat, outcome: nat -> Outcome)
    requires Consistent(r, outcome) && r.row.Some? && BrokeAt(r, k, outcome)
    ensures r.row.value.error.StepFailed? ==> r.row.value.results == BatchResults(r.steps, 0, |r.started|, outcome)
    ensures r.row.value.error == Aborted ==> (r.row.value.results == BatchResults(r.steps, 0, k, outcome) <==> !r.overwritten)
  {
    var results := r.row.value.results;
    if r.row.value.error.StepFailed? {
      MatchesOn(results[..k], k, |r.started|, r.steps, outcome);
      SameResults(results, |r.started|, r.steps, outcome);
    } else if !r.overwritten {
      SameResults(results, k, r.steps, outcome);
    }
  }

  lemma SameResults(results: seq<Result>, n: nat, steps: seq<RunStep>, outcome: nat -> Outcome)
    requires |results| == n && Matches(results, n, steps, outcome)
    ensures results == BatchResults(steps, 0, n, outcome)
  {
  }

  /** Two runs of the same steps, however interrupted, agree once both end by themselves. */
  lemma InterruptionsDoNotMatter(steps: seq<RunStep>, es: seq<Event>, fs: seq<Event>, outcome: nat -> Outcome)
    requires OnItsOwn(RunAll(NewRun(steps), es, outcome)) && OnItsOwn(RunAll(NewRun(steps), fs, outcome))
    ensures var a, b := RunAll(NewRun(steps), es, outcome), RunAll(NewRun(steps), fs, outcome);
            && StatusOf(a) == StatusOf(b) && a.started == b.started
            && (StatusOf(a) == Some(Failed) ==> ErrorOf(a) == ErrorOf(b))
            && (!a.overwritten && !b.overwritten ==> a.row.value.results == b.row.value.results)
            && (a.overwritten && !b.overwritten ==> a.row.value.results != b.row.value.results)
  {
    RunEnds(steps, es, outcome);
    RunEnds(steps, fs, outcome);
  }

  /** The same for one run from its beginning. */
  lemma RunEnds(steps: seq<RunStep>, es: seq<Event>, outcome: nat -> Outcome)
    requires OnItsOwn(RunAll(NewRun(steps), es, outcome))
    ensures var r, v := RunAll(NewRun(steps), es, outcome), Reference(steps, 0, outcome);
            && r.row.value.status == v.status && r.started == Indexes(0, v.started)
            && (v.status == Failed ==> r.row.value.error == v.error)
            && (r.row.value.results == BatchResults(steps, 0, v.kept, outcome) <==> !r.overwritten)
  {
    RunKeepsConsistent(steps, es, outcome);
    RunKeepsSteps(steps, es, outcome);
    EndIsDetermined(RunAll(NewRun(steps), es, outcome), outcome);
  }
}
