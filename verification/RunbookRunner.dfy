/**
 The runner object: the store's runs together with the tasks and gates of the
 live host. Each method is one call, or one uninterrupted stretch of a run's
 coroutine, and leaves every other run alone.
 */
module RunbookRunners {
  import opened Options
  import opened Runbooks
  import opened RunbookLaws

  /** Every run has lost its task and its gate; those not to do are marked as well. */
  ghost predicate Booting(store: map<nat, Run>, booted: map<nat, Run>, todo: set<nat>) {
    && booted.Keys == store.Keys
    && forall id :: id in store ==> booted[id] == if id in todo then store[id].(task := NoTask, gate := None) else Restarted(store[id])
  }

  lemma BootsOne(store: map<nat, Run>, booted: map<nat, Run>, todo: set<nat>, id: nat)
    requires Booting(store, booted, todo) && id in todo && id in store
    ensures Booting(store, booted[id := Restarted(booted[id])], todo - {id})
  {
  }

  /** A run found in flight has failed. */
  method MarkInterrupted(run: Run) returns (marked: Run)
    requires run.task == NoTask && run.gate.None?
    ensures marked == Restarted(run)
  {
    if run.row.Some? && run.row.value.status == Running {
      return run.(row := Some(run.row.value.(status := Failed, error := HostRestarted)));
    }
    return run;
  }

  class RunbookRunner {
    var runs: map<nat, Run>

    /** A host starts over a store: runs it finds in flight have failed. */
    constructor (store: map<nat, Run>)
      ensures runs == map id | id in store :: Restarted(store[id])
      ensures forall id :: id in store ==> RestartLaw(store[id], runs[id])
    {
      var booted := map id | id in store :: store[id].(task := NoTask, gate := None);
      var todo := store.Keys;
      while todo != {}
        invariant todo <= store.Keys && Booting(store, booted, todo)
        decreases |todo|
      {
        var id :| id in todo;
        BootsOne(store, booted, todo, id);
        var run := MarkInterrupted(booted[id]);
        booted := booted[id := run];
        todo := todo - {id};
      }
      forall id | id in store ensures RestartLaw(store[id], booted[id]) { RestartLawful(store[id]); }
      runs := booted;
    }

    method Begin(steps: seq<RunStep>, id: nat)
      requires id !in runs
      modifies this
      ensures runs == old(runs)[id := NewRun(steps)]
    {
      var row := Row(steps, Running, -1, [], NoError);
      runs := runs[id := Run(steps, Some(row), Scheduled(0, [], -1), None, Some(steps), [], [], false)];
    }

    /** The steps launched together from `index`. */
    method BatchFrom(steps: seq<RunStep>, index: nat) returns (group: seq<RunStep>)
      requires index < |steps|
      ensures group == steps[index..BatchEnd(steps, index)]
    {
      group := [steps[index]];
      if steps[index].parallel {
        while index + |group| < |steps| && steps[index + |group|].parallel && !steps[index + |group|].confirm
          invariant 1 <= |group| <= |steps| - index && group == steps[index..index + |group|]
          invariant JoinEnd(steps, index + 1) == JoinEnd(steps, index + |group|)
        {
          group := group + [steps[index + |group|]];
        }
      }
    }

    /** The last update of a run; a row that is gone stays gone. */
    method Save(id: nat, status: Status, results: seq<Result>, error: Reason)
      requires id in runs
      modifies this
      ensures runs == old(runs)[id := Finish(old(runs)[id], status, results, error)]
    {
      var run := runs[id];
      if run.row.Some? {
        var row := run.row.value.(status := status, current := |results| - 1, results := results, error := error);
        run := run.(row := Some(row));
      }
      runs := runs[id := run.(task := NoTask, gate := None)];
    }

    method LaunchBatch(id: nat, index: nat, results: seq<Result>, skip: int)
      requires id in runs && index < |runs[id].steps|
      modifies this
      ensures runs == old(runs)[id := Launch(old(runs)[id], index, results, skip)]
    {
      var run := runs[id];
      var group := BatchFrom(run.steps, index);
      runs := runs[id := run.(task := Flying(index, results, skip, map[]), started := run.started + Indexes(index, index + |group|))];
    }

    method ParkAt(id: nat, index: nat, results: seq<Result>, skip: int)
      requires id in runs
      modifies this
      ensures runs == old(runs)[id := Park(old(runs)[id], index, results, skip)]
    {
      var run := runs[id];
      if run.row.Some? {
        run := run.(row := Some(run.row.value.(status := Awaiting, current := index, results := results)));
      }
      if run.gate.None? { run := run.(gate := Some(false)); }
      runs := runs[id := run.(task := Waiting(index, results, skip))];
    }

    /** The loop of the coroutine, from its top to its next await. */
    method Proceed(id: nat, index: nat, results: seq<Result>, skip: int)
      requires id in runs
      modifies this
      ensures runs == old(runs)[id := Advance(old(runs)[id], index, results, skip)]
      ensures old(runs)[id].steps == runs[id].steps && (index >= |runs[id].steps| || (runs[id].steps[index].confirm && index != skip) ==> runs[id].started == old(runs)[id].started)
      ensures AdvanceLaw(old(runs)[id], index, results, skip, runs[id])
    {
      AdvanceLawful(runs[id], index, results, skip);
      var steps := runs[id].steps;
      if index >= |steps| {
        Save(id, Completed, results, NoError);
      } else if steps[index].confirm && index != skip {
        ParkAt(id, index, results, skip);
      } else {
        LaunchBatch(id, index, results, skip);
      }
    }

    /** The coroutine comes back from its gate. */
    method Awake(id: nat)
      requires id in runs && runs[id].task.Waiting? && Open(runs[id].gate)
      modifies this
      ensures runs == old(runs)[id := Woken(old(runs)[id])]
      ensures StatusOf(old(runs)[id]) != Some(Running) ==> runs[id].started == old(runs)[id].started && !Live(runs[id].task)
      ensures WakeLaw(old(runs)[id], runs[id])
    {
      WakeLawful(runs[id]);
      var task := runs[id].task;
      runs := runs[id := runs[id].(gate := Some(false))];
      if runs[id].row.None? || runs[id].row.value.status != Running {
        Save(id, Cancelled, task.results, ByUser);
      } else if task.index < |runs[id].steps| {
        LaunchBatch(id, task.index, task.results, task.skip);
      }
    }

    method FindBroken(rs: seq<Result>) returns (command: Option<string>)
      ensures command == FirstBroken(rs)
    {
      for i := 0 to |rs|
        invariant FirstBroken(rs) == FirstBroken(rs[i..])
      {
        if rs[i].mark != Succeeded { return Some(rs[i].command); }
      }
      return None;
    }

    /** The batch in flight has ended, or one of its members could not be spawned while `running` go on. */
    method EndBatch(id: nat, running: set<nat>, outcome: nat -> Outcome)
      requires id in runs && runs[id].task.Flying? && runs[id].task.index < |runs[id].steps|
      modifies this
      ensures runs == old(runs)[id := Settled(old(runs)[id], running, outcome)]
      ensures AnyRaised(old(runs)[id].task.index, BatchEnd(old(runs)[id].steps, old(runs)[id].task.index), outcome) ==> runs[id].started == old(runs)[id].started && !Live(runs[id].task)
      ensures SettleLaw(old(runs)[id], running, outcome, runs[id])
    {
      SettleLawful(runs[id], running, outcome);
      var run, task := runs[id], runs[id].task;
      var b := BatchEnd(run.steps, task.index);
      if AnyRaised(task.index, b, outcome) {
        Save(id, Failed, task.results, Aborted);
        if running != {} {
          runs := runs[id := runs[id].(task := Orphans(task.index, task.results, task.live, running))];
        }
      } else {
        CloseBatch(id, b, task.results + BatchResults(run.steps, task.index, b, outcome), outcome);
      }
    }

    /** The results of a batch are stored; a failure among them ends the run. */
    method CloseBatch(id: nat, b: nat, results: seq<Result>, outcome: nat -> Outcome)
      requires id in runs && runs[id].task.Flying? && runs[id].task.index < |runs[id].steps|
      requires b == BatchEnd(runs[id].steps, runs[id].task.index) && !AnyRaised(runs[id].task.index, b, outcome)
      requires results == runs[id].task.results + BatchResults(runs[id].steps, runs[id].task.index, b, outcome)
      modifies this
      ensures runs == old(runs)[id := Settled(old(runs)[id], {}, outcome)]
    {
      var run, task := runs[id], runs[id].task;
      if run.row.Some? { run := run.(row := Some(run.row.value.(current := b - 1, results := results))); }
      runs := runs[id := run];
      var broken := FindBroken(BatchResults(run.steps, task.index, b, outcome));
      if broken.Some? {
        Save(id, Failed, results, StepFailed(broken.value));
      } else {
        Proceed(id, b, results, task.skip);
      }
    }

    method ConfirmRun(id: nat) returns (found: bool)
      modifies this
      ensures found <==> id in old(runs) && old(runs)[id].row.Some?
      ensures runs == if found then old(runs)[id := Confirmed(old(runs)[id])] else old(runs)
      ensures found && old(runs)[id].row.value.status == Awaiting ==> StatusOf(runs[id]) == Some(Running)
      ensures found ==> ConfirmLaw(old(runs)[id], runs[id])
    {
      if id in runs { ConfirmLawful(runs[id]); }
      if id !in runs || runs[id].row.None? { return false; }
      var run := runs[id];
      var row := run.row.value;
      if row.status == Awaiting {
        run := run.(row := Some(row.(status := Running)));
        if row.current >= 0 { run := run.(confirmed := run.confirmed + [row.current]); }
        if run.gate.Some? {
          run := run.(gate := Some(true));
        } else if !Live(run.task) && run.runbook.Some? {
          run := run.(steps := if row.steps != [] then row.steps else run.runbook.value);
          run := run.(task := Scheduled(if row.current >= 0 then row.current else 0, row.results, row.current));
        }
      }
      runs := runs[id := run];
      return true;
    }

    method CancelRun(id: nat) returns (found: bool)
      modifies this
      ensures found <==> id in old(runs) && old(runs)[id].row.Some?
      ensures runs == if found then old(runs)[id := Withdrawn(old(runs)[id])] else old(runs)
      ensures found && !Final(old(runs)[id].row.value.status) ==> !Live(runs[id].task) && runs[id].started == old(runs)[id].started
      ensures found ==> CancelLaw(old(runs)[id], runs[id])
    {
      if id in runs { CancelLawful(runs[id]); }
      if id !in runs || runs[id].row.None? { return false; }
      var run := runs[id];
      if Final(run.row.value.status) {
        runs := runs[id := run];
      } else if run.task.Waiting? || run.task.Flying? {
        Save(id, Cancelled, run.task.results, ByUser);
      } else {
        runs := runs[id := run.(task := NoTask, row := Some(run.row.value.(status := Cancelled, error := ByUser)))];
      }
      return true;
    }
  }
}
