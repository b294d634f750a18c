/**
 One runbook run: steps in batches, gates that wait for a confirmation, stop on
 failure, and a host that may restart at any time. The row is durable as long as
 its runbook is; the task and the gate's event live as long as the host.
 */
module Runbooks {
  import opened Options

  datatype RunStep = RunStep(command: string, confirm: bool, parallel: bool)

  /** What became of a step: it exited, or it could not even be spawned. */
  datatype Outcome = Exited(ok: bool, output: string) | Raised

  datatype Mark = InProgress | Succeeded | Broke
  datatype Result = Result(command: string, mark: Mark, output: string)
  datatype Status = Running | Awaiting | Completed | Failed | Cancelled
  datatype Reason = NoError | StepFailed(command: string) | Aborted | ByUser | HostRestarted

  datatype Row = Row(steps: seq<RunStep>, status: Status, current: int, results: seq<Result>, error: Reason)

  /** Where the run's coroutine stands between two of its awaits, or what a failed batch left running. */
  datatype Task =
    | NoTask
    | Scheduled(index: nat, results: seq<Result>, skip: int)
    | Waiting(index: nat, results: seq<Result>, skip: int)
    | Flying(index: nat, results: seq<Result>, skip: int, live: map<nat, Result>)
    | Orphans(index: nat, results: seq<Result>, live: map<nat, Result>, running: set<nat>)

  /**
   `steps` are those the coroutine works on; the row goes when its runbook is
   deleted. `started`, `confirmed` and `overwritten` are history: the steps
   launched, the steps confirmed, and whether an orphan wrote into the row.
   */
  datatype Run = Run(
    steps: seq<RunStep>, row: Option<Row>, task: Task, gate: Option<bool>, runbook: Option<seq<RunStep>>,
    started: seq<nat>, confirmed: seq<nat>, overwritten: bool)

  datatype Event =
    | Go
    | Wake
    | Settle(running: set<nat>)
    | Publish(member: nat, output: string)
    | MemberEnds(member: nat)
    | Confirm
    | Cancel
    | Restart
    | SaveRunbook(steps: seq<RunStep>)
    | DeleteRunbook

  predicate Final(s: Status) { s == Completed || s == Failed || s == Cancelled }

  // ----------------------------------------------------------------- batches

  predicate Joins(s: RunStep) { s.parallel && !s.confirm }

  /** The end of the run of joining steps from `k`. */
  function JoinEnd(steps: seq<RunStep>, k: nat): (n: nat)
    requires k <= |steps|
    ensures k <= n <= |steps|
    decreases |steps| - k
  {
    if k < |steps| && Joins(steps[k]) then JoinEnd(steps, k + 1) else k
  }

  /** The end of the batch that begins at `k`. */
  function BatchEnd(steps: seq<RunStep>, k: nat): (n: nat)
    requires k < |steps|
    ensures k < n <= |steps|
  {
    if steps[k].parallel then JoinEnd(steps, k + 1) else k + 1
  }

  function Indexes(a: nat, b: nat): (s: seq<nat>)
    requires a <= b
    ensures |s| == b - a
  {
    seq(b - a, i requires 0 <= i < b - a => a + i)
  }

  // ----------------------------------------------------------------- outcomes

  function ResultOf(step: RunStep, outcome: Outcome): Result {
    Result(step.command, if outcome.Exited? && outcome.ok then Succeeded else Broke,
           if outcome.Exited? then outcome.output else "")
  }

  function BatchResults(steps: seq<RunStep>, a: nat, b: nat, outcome: nat -> Outcome): (rs: seq<Result>)
    requires a <= b <= |steps|
    ensures |rs| == b - a
  {
    seq(b - a, i requires 0 <= i < b - a => ResultOf(steps[a + i], outcome(a + i)))
  }

  predicate AnyRaised(a: nat, b: nat, outcome: nat -> Outcome) {
    exists i :: a <= i < b && outcome(i).Raised?
  }

  /** The command of the first result that is not a success. */
  function FirstBroken(rs: seq<Result>): Option<string> {
    if rs == [] then None
    else if rs[0].mark != Succeeded then Some(rs[0].command)
    else FirstBroken(rs[1..])
  }

  // ------------------------------------------------------ progress of a batch

  /** The first step of the batch equal to a member: progress is filed under it. */
  function FirstEqual(steps: seq<RunStep>, a: nat, member: nat): (k: nat)
    requires a <= member < |steps|
    ensures a <= k <= member && steps[k] == steps[member]
    decreases member - a
  {
    if steps[a] == steps[member] then a else FirstEqual(steps, a + 1, member)
  }

  /** The progress filed so far, in order. */
  function Shown(live: map<nat, Result>, a: nat, b: nat): seq<Result>
    decreases b - a
  {
    if a >= b then [] else (if a in live then [live[a]] else []) + Shown(live, a + 1, b)
  }

  // ----------------------------------------------------- segments of the task

  /** An update of a row that is gone does nothing. */
  function Recorded(row: Option<Row>, current: int, results: seq<Result>): Option<Row> {
    if row.None? then None else Some(row.value.(current := current, results := results))
  }

  function Marked(row: Option<Row>, status: Status, error: Reason): Option<Row> {
    if row.None? then None else Some(row.value.(status := status, error := error))
  }

  function StatusOf(r: Run): Option<Status> {
    if r.row.None? then None else Some(r.row.value.status)
  }

  function ErrorOf(r: Run): Reason {
    if r.row.None? then NoError else r.row.value.error
  }

  function Finish(r: Run, status: Status, results: seq<Result>, error: Reason): Run {
    r.(row := Marked(Recorded(r.row, |results| - 1, results), status, error), task := NoTask, gate := None)
  }

  function Launch(r: Run, index: nat, results: seq<Result>, skip: int): Run
    requires index < |r.steps|
  {
    r.(task := Flying(index, results, skip, map[]), started := r.started + Indexes(index, BatchEnd(r.steps, index)))
  }

  function Park(r: Run, index: nat, results: seq<Result>, skip: int): Run {
    r.(row := Marked(Recorded(r.row, index, results), Awaiting, ErrorOf(r)),
       task := Waiting(index, results, skip),
       gate := if r.gate.None? then Some(false) else r.gate)
  }

  /** From the top of the loop to the next await. */
  function Advance(r: Run, index: nat, results: seq<Result>, skip: int): Run {
    if index >= |r.steps| then Finish(r, Completed, results, NoError)
    else if r.steps[index].confirm && index != skip then Park(r, index, results, skip)
    else Launch(r, index, results, skip)
  }

  function Woken(r: Run): Run
    requires r.task.Waiting?
  {
    var lowered := r.(gate := Some(false));
    if StatusOf(r) != Some(Running) then Finish(r, Cancelled, r.task.results, ByUser)
    else if r.task.index < |r.steps| then Launch(lowered, r.task.index, r.task.results, r.task.skip)
    else lowered
  }

  /** All have exited; or one could not be spawned, while `running` members go on. */
  ghost predicate MaySettle(a: nat, b: nat, running: set<nat>, outcome: nat -> Outcome) {
    if AnyRaised(a, b, outcome) then
      (forall m :: m in running ==> a <= m < b) && exists i :: a <= i < b && i !in running && outcome(i).Raised?
    else running == {}
  }

  function AbortedBatch(r: Run, running: set<nat>): Run
    requires r.task.Flying?
  {
    var ended := Finish(r, Failed, r.task.results, Aborted);
    if running == {} then ended else ended.(task := Orphans(r.task.index, r.task.results, r.task.live, running))
  }

  function Settled(r: Run, running: set<nat>, outcome: nat -> Outcome): Run
    requires r.task.Flying? && r.task.index < |r.steps|
  {
    var a, b := r.task.index, BatchEnd(r.steps, r.task.index);
    if AnyRaised(a, b, outcome) then AbortedBatch(r, running)
    else
      var batch := BatchResults(r.steps, a, b, outcome);
      var results := r.task.results + batch;
      var saved := r.(row := Recorded(r.row, b - 1, results));
      var broken := FirstBroken(batch);
      if broken.Some? then Finish(saved, Failed, results, StepFailed(broken.value))
      else Advance(saved, b, results, r.task.skip)
  }

  // ----------------------------------------------------------- the operations

  function NewRun(steps: seq<RunStep>): Run {
    Run(steps, Some(Row(steps, Running, -1, [], NoError)), Scheduled(0, [], -1), None, Some(steps), [], [], false)
  }

  predicate Open(gate: Option<bool>) { gate.Some? && gate.value }

  predicate Live(t: Task) { t.Scheduled? || t.Waiting? || t.Flying? }

  /** Confirming a run that is not found is refused. */
  function Confirmed(r: Run): Run {
    if StatusOf(r) != Some(Awaiting) then r
    else
      var row := r.row.value;
      var going := r.(row := Some(row.(status := Running)),
                      confirmed := if row.current >= 0 then r.confirmed + [row.current] else r.confirmed);
      if r.gate.Some? then going.(gate := Some(true))
      else if Live(r.task) || r.runbook.None? then going
      else
        going.(steps := if row.steps != [] then row.steps else r.runbook.value,
               task := Scheduled(if row.current >= 0 then row.current else 0, row.results, row.current))
  }

  /** So is cancelling one. */
  function Withdrawn(r: Run): Run {
    if r.row.None? || Final(r.row.value.status) then r
    else if r.task.Waiting? || r.task.Flying? then Finish(r, Cancelled, r.task.results, ByUser)
    else r.(row := Some(r.row.value.(status := Cancelled, error := ByUser)), task := NoTask)
  }

  function Restarted(r: Run): Run {
    r.(task := NoTask, gate := None,
       row := if StatusOf(r) == Some(Running) then Some(r.row.value.(status := Failed, error := HostRestarted)) else r.row)
  }

  /** A member of the batch in flight, or one a failed batch left behind. */
  predicate Publishes(r: Run, member: nat) {
    || (r.task.Flying? && r.task.index < |r.steps| && r.task.index <= member < BatchEnd(r.steps, r.task.index))
    || (r.task.Orphans? && member in r.task.running && r.task.index <= member < |r.steps|)
  }

  function Published(r: Run, member: nat, output: string): Run {
    if !Publishes(r, member) then r
    else
      var a, key := r.task.index, FirstEqual(r.steps, r.task.index, member);
      var live := r.task.live[key := Result(r.steps[member].command, InProgress, output)];
      var results := r.task.results + Shown(live, a, BatchEnd(r.steps, a));
      r.(row := Recorded(r.row, key, results), task := r.task.(live := live),
         overwritten := r.overwritten || (r.task.Orphans? && r.row.Some?))
  }

  function MemberEnded(r: Run, member: nat): Run {
    if !r.task.Orphans? then r
    else if r.task.running - {member} == {} then r.(task := NoTask)
    else r.(task := r.task.(running := r.task.running - {member}))
  }

  ghost function Step(r: Run, e: Event, outcome: nat -> Outcome): Run {
    match e
    case Go => if r.task.Scheduled? then Advance(r, r.task.index, r.task.results, r.task.skip) else r
    case Wake => if r.task.Waiting? && Open(r.gate) then Woken(r) else r
    case Settle(running) =>
      if r.task.Flying? && r.task.index < |r.steps| && MaySettle(r.task.index, BatchEnd(r.steps, r.task.index), running, outcome)
      then Settled(r, running, outcome) else r
    case Publish(member, output) => Published(r, member, output)
    case MemberEnds(member) => MemberEnded(r, member)
    case Confirm => Confirmed(r)
    case Cancel => Withdrawn(r)
    case Restart => Restarted(r)
    case SaveRunbook(steps) => if r.runbook.Some? then r.(runbook := Some(steps)) else r
    case DeleteRunbook => r.(runbook := None, row := None)
  }

  ghost function RunAll(r: Run, es: seq<Event>, outcome: nat -> Outcome): Run {
    if es == [] then r else Step(RunAll(r, es[..|es| - 1], outcome), es[|es| - 1], outcome)
  }
}
