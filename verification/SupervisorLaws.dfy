/**
 What each section of the supervisor does to its fields, and that a restart which
 is not refused always brings a backend up, whatever other threads do meanwhile.
 */
module SupervisorLaws {
  import opened Options
  import opened Supervisor
  import opened SupervisorSafety

  // ----------------------------------------------------------- a session begins

  /** Somebody wants the backend to stay down. */
  predicate Unwanted(f: Flags) { f.stopRequested || f.pending || f.confirmed }

  predicate MayStart(s: Host) { !s.flags.quitting && !Unwanted(s.flags) && s.core.child.None? && s.info.None? }

  /** No process is made, and none is let go. */
  predicate SameProcesses(s: Host, t: Host) {
    && t.core.child == s.core.child && t.core.procs == s.core.procs && t.core.nextPid == s.core.nextPid
    && t.budget.spawned == s.budget.spawned
  }

  /** One more process, alive and watched, whose reader is the one listened to, is the child. */
  predicate Launched(s: Host, t: Host) {
    && t.core.child == Some(s.core.nextPid) && t.core.nextPid == s.core.nextPid + 1
    && t.core.procs == s.core.procs[s.core.nextPid := Process(t.core.generation, false, None, Watching)]
    && t.budget.spawned == s.budget.spawned + 1
    && t.phase == Starting && !t.adopted && t.info == s.info && t.readyAt == s.readyAt && t.watchers == s.watchers
  }

  /** A backend that somebody else runs is used, and is ready. */
  predicate Attached(s: Host, port: nat, t: Host) {
    && SameProcesses(s, t) && t.phase == Up && t.adopted && t.info == Some(port) && t.readyAt == Some(t.now)
  }

  /** In service mode attach and watch; otherwise adopt what answers, or spawn, or fail. */
  predicate Began(s: Host, service: bool, probe: Probe, t: Host) {
    && t.core.generation == s.core.generation + 1 && t.now == s.now && t.service == service
    && (if service then
          if probe.service.Some? then Attached(s, probe.service.value, t) && t.watchers == s.watchers + {t.core.generation}
          else SameProcesses(s, t) && t.phase == Down && (t.info, t.readyAt, t.watchers, t.adopted) == (s.info, s.readyAt, s.watchers, s.adopted)
        else if probe.adopts.Some? then Attached(s, probe.adopts.value, t) && t.watchers == s.watchers
        else if probe.spawns then Launched(s, t)
        else SameProcesses(s, t) && t.phase == Down && !t.adopted && (t.info, t.readyAt, t.watchers) == (s.info, s.readyAt, s.watchers))
  }

  /** Everything but the phase stands still. */
  predicate Waits(s: Host, t: Host) {
    && SameProcesses(s, t) && t.core.generation == s.core.generation
    && (t.now, t.service, t.adopted, t.info, t.readyAt, t.watchers) == (s.now, s.service, s.adopted, s.info, s.readyAt, s.watchers)
  }

  predicate SessionLaw(s: Host, probe: Probe, t: Host) {
    if MayStart(s) then
      && Began(s, s.service, probe, t) && t.flags == s.flags && t.core.holder == s.core.holder
      && t.budget.restarts == s.budget.restarts && t.budget.respawns == s.budget.respawns
    else t == s
  }

  lemma SessionLawful(s: Host, probe: Probe)
    ensures SessionLaw(s, probe, RunSession(s, probe))
  {
  }

  // --------------------------------------------------- a restart, a change of mode

  /** Nothing is asked for any more but to quit. */
  predicate Cleanly(s: Host, t: Host) {
    t.flags == Flags(false, false, false, s.flags.quitting)
  }

  /** A refusal is shown, and nothing else happens. */
  predicate Refused(s: Host, t: Host) {
    Waits(s, t) && t.phase == Down && t.core.holder.Nobody? && t.flags == s.flags && t.budget == s.budget
  }

  /** A session begins, or is not needed. */
  predicate Resumed(s: Host, service: bool, probe: Probe, t: Host) {
    if s.flags.quitting || s.core.child.Some? || s.info.Some? then Waits(s.(service := service), t) else Began(s, service, probe, t)
  }

  /** A restart that is not refused forgets every stop and every crash, and begins a session. */
  predicate RestartLaw(s: Host, ok: bool, probe: Probe, t: Host) {
    if s.service && !ok then Refused(s, t)
    else
      && Cleanly(s, t) && t.core.holder.Nobody? && t.budget.restarts == 0 && t.budget.respawns == 0
      && Resumed(s, s.service, probe, t)
      && (s.flags.quitting || s.core.child.Some? || s.info.Some? ==> t.phase == Starting)
  }

  /** At most one process is made, and none when the program quits. */
  lemma RestartSpawnsOnce(s: Host, ok: bool, probe: Probe, t: Host)
    requires RestartLaw(s, ok, probe, t)
    ensures t.budget.spawned <= s.budget.spawned + 1 && (s.flags.quitting ==> t.budget.spawned == s.budget.spawned)
  {
  }

  lemma RestartLawful(s: Host, ok: bool, saved: bool, probe: Probe)
    ensures RestartLaw(s, ok, probe, AfterControl(s, Restart, ok, saved, probe))
  {
  }

  /** The mode is what was last saved, even when the service then fails; only a change that succeeds begins a session. */
  predicate ModeLaw(s: Host, enabled: bool, ok: bool, saved: bool, probe: Probe, t: Host) {
    if !ok || !saved then Refused(s.(service := if enabled then s.service || saved else s.service), t)
    else
      && Cleanly(s, t) && t.core.holder.Nobody?
      && t.budget.restarts == s.budget.restarts && t.budget.respawns == s.budget.respawns
      && Resumed(s, enabled, probe, t)
      && (s.flags.quitting || s.core.child.Some? || s.info.Some? ==> t.phase == s.phase)
  }

  lemma ModeLawful(s: Host, enabled: bool, ok: bool, saved: bool, probe: Probe)
    ensures ModeLaw(s, enabled, ok, saved, probe, AfterControl(s, SwitchMode(enabled), ok, saved, probe))
  {
  }

  // --------------------------------------------------------------- a child ends

  predicate Outlived(s: Host) { s.readyAt.Some? && s.now - s.readyAt.value > 60.0 }

  /** Which attempt this crash is: the first again after a mark older than a minute. */
  function Attempt(s: Host): nat { if Outlived(s) then 1 else s.budget.restarts + 1 }

  /** An unwanted end is charged and waits a second, then two, then four; the fourth is the last. */
  predicate Charges(s: Host, t: Host) {
    && t.budget.restarts == Attempt(s) && t.budget.spawned == s.budget.spawned
    && t.budget.respawns == (if Outlived(s) then 0 else s.budget.respawns)
    && (if Attempt(s) > 3 then t.phase == Down && t.core.holder == s.core.holder
        else
          && t.phase == s.phase && t.core.holder.BackingOff?
          && (Attempt(s) == 1 ==> t.core.holder.until == s.now + 1.0)
          && (Attempt(s) == 2 ==> t.core.holder.until == s.now + 2.0)
          && (Attempt(s) == 3 ==> t.core.holder.until == s.now + 4.0))
  }

  predicate ExitLaw(s: Host, pid: nat, code: Option<int>, expected: bool, t: Host) {
    if s.core.child != Some(pid) then t == s
    else
      && t.core.child.None? && t.info.None? && t.core.generation == s.core.generation + 1
      && t.core.procs == s.core.procs && t.core.nextPid == s.core.nextPid
      && (t.now, t.service, t.adopted, t.readyAt, t.watchers) == (s.now, s.service, s.adopted, s.readyAt, s.watchers)
      && t.flags == s.flags.(confirmed := s.flags.confirmed || code == Some(79))
      && (if expected || Unwanted(s.flags) || code == Some(79) then t.phase == Idle && t.budget == s.budget && t.core.holder == s.core.holder
          else Charges(s, t))
  }

  lemma CrashCharges(s: Host)
    ensures var t := Crashed(s); Charges(s, t) && t == s.(budget := t.budget, phase := t.phase, core := s.core.(holder := t.core.holder))
  {
    assert Delay(2) == 2.0 * Delay(1);
    assert Delay(3) == 2.0 * Delay(2);
  }

  lemma ExitLawful(s: Host, pid: nat, code: Option<int>, expected: bool)
    ensures ExitLaw(s, pid, code, expected, OnExit(s, pid, code, expected))
  {
    if s.core.child == Some(pid) {
      CrashCharges(s.(core := WithoutChild(s.core), info := None,
                      flags := s.flags.(confirmed := s.flags.confirmed || code == Some(HOST_STOP))));
    }
  }

  /** After the delay the flags are read again; an attempt that goes ahead is counted. */
  predicate BackoffLaw(s: Host, probe: Probe, t: Host) {
    && t.core.holder.Nobody? && t.flags == s.flags && t.budget.restarts == s.budget.restarts
    && (if Unwanted(s.flags) then Waits(s, t) && t.phase == s.phase && t.budget == s.budget
        else
          && t.budget.respawns == s.budget.respawns + 1 && Resumed(s, s.service, probe, t)
          && (s.flags.quitting || s.core.child.Some? || s.info.Some? ==> t.phase == Starting))
  }

  lemma BackoffLawful(s: Host, probe: Probe)
    ensures BackoffLaw(s, probe, AfterBackoff(s, probe))
  {
  }

  // --------------------------------------------------------------- lines, stops

  /** A line of the current reader: ready counts unless a stop is on, a stop is confirmed or called off. */
  predicate LineLaw(s: Host, reader: nat, line: Line, t: Host) {
    if reader != s.core.generation || line.Other? || (line.Ready? && (s.flags.stopRequested || s.flags.quitting)) then t == s
    else match line
      case Ready(port) => t == s.(info := t.info, readyAt := t.readyAt, phase := t.phase) && t.info == Some(port) && t.readyAt == Some(s.now) && t.phase == Up
      case HostStopping => t == s.(flags := s.flags.(confirmed := true))
      case HostStopCancelled => t == s.(flags := s.flags.(pending := false))
      case Other => true
  }

  lemma LineLawful(s: Host, reader: nat, line: Line)
    ensures LineLaw(s, reader, line, HandleLine(s, reader, line))
  {
  }

  /** Whoever still ran has ended, and nothing of the session is left. */
  predicate Emptied(s: Host, t: Host) {
    && t.core.child.None? && t.info.None? && t.readyAt.None? && t.core.nextPid == s.core.nextPid
    && t.core.generation == s.core.generation && t.budget == s.budget && t.flags == s.flags
    && (t.now, t.service, t.adopted, t.watchers) == (s.now, s.service, s.adopted, s.watchers)
    && t.core.procs.Keys == s.core.procs.Keys
    && forall p :: p in s.core.procs ==>
         t.core.procs[p] == if s.core.child == Some(p) && !s.core.procs[p].ended then s.core.procs[p].(ended := true, code := None) else s.core.procs[p]
  }

  /** A plain stop lets go; a restart goes on unless the program quits; a change of mode goes on. */
  predicate HaltLaw(s: Host, op: Op, ok: bool, t: Host) {
    && Emptied(s, t)
    && t.phase == (if op == StopService && !ok then Down else Idle)
    && t.core.holder == (if op.SwitchMode? || (op == Restart && !s.flags.quitting) then Controlling(op) else Nobody)
  }

  lemma HaltLawful(s: Host, op: Op, ok: bool)
    ensures HaltLaw(s, op, ok, AfterHalt(s, op, ok))
  {
  }

  /** A stop begins: it is asked for, and the reader of the moment is not listened to any more. */
  predicate AcquireLaw(s: Host, op: Op, t: Host) {
    && t == s.(flags := s.flags.(stopRequested := true), core := t.core, phase := t.phase)
    && t.core == s.core.(generation := s.core.generation + 1, holder := Halting(op))
    && t.phase == (if s.phase == Idle then Idle else Stopping)
  }

  /** Only the row of the one process changes. */
  predicate Marks(s: Host, pid: nat, p: Process, t: Host) {
    t == s.(core := s.core.(procs := s.core.procs[pid := p]))
  }

  /** A monitor goes when its process is not the child any more, and reports when it has ended, with whether a stop was asked for. */
  predicate ObserveLaw(s: Host, pid: nat, t: Host)
    requires pid in s.core.procs
  {
    var p := s.core.procs[pid];
    if p.monitor != Watching || (s.core.child == Some(pid) && !p.ended) then t == s
    else Marks(s, pid, p.(monitor := if s.core.child == Some(pid) then Saw(p.code, s.flags.stopRequested) else Gone), t)
  }

  /** What the threads do that need the mutex: nothing while another holds it. */
  predicate SectionLaw(s: Host, e: Event, t: Host) {
    var c := s.core;
    match e
    case Begin(probe) => if c.holder == Nobody then SessionLaw(s, probe, t) else t == s
    case Exited(pid) =>
      if c.holder == Nobody && pid in c.procs && c.procs[pid].monitor.Saw? then
        var m := c.procs[pid].monitor;
        ExitLaw(s.(core := c.(procs := c.procs[pid := c.procs[pid].(monitor := Gone)])), pid, m.code, m.expected, t)
      else t == s
    case BackoffEnds(probe) => if c.holder.BackingOff? && c.holder.until <= s.now then BackoffLaw(s, probe, t) else t == s
    case Prints(pid, line) => if c.holder == Nobody && pid in c.procs then LineLaw(s, c.procs[pid].generation, line, t) else t == s
    case Acquire(op) => if c.holder == Nobody then AcquireLaw(s, op, t) else t == s
    case Halted(ok) => if c.holder.Halting? then HaltLaw(s, c.holder.op, ok, t) else t == s
    case ServiceLost(generation) =>
      if c.holder == Nobody && generation in s.watchers && generation == c.generation && !s.flags.quitting
      then t == s.(info := None, phase := Down) else t == s
    case Controlled(ok, saved, probe) =>
      if !c.holder.Controlling? then t == s
      else (match c.holder.op
        case Restart => RestartLaw(s, ok, probe, t)
        case SwitchMode(service) => ModeLaw(s, service, ok, saved, probe, t)
        case _ => true)
    case _ => true
  }

  /** What happens without the mutex. */
  predicate SignalLaw(s: Host, e: Event, t: Host) {
    match e
    case RequestStop => t == s.(flags := s.flags.(stopRequested := true))
    case Arm => t == s.(flags := s.flags.(pending := true))
    case Disarm => t == s.(flags := s.flags.(pending := false))
    case Quit => t == s.(flags := s.flags.(quitting := true))
    case Elapse(dt) => t == s.(now := if dt < 0.0 then s.now else s.now + dt)
    case Ends(pid, code) =>
      if pid in s.core.procs && !s.core.procs[pid].ended then Marks(s, pid, s.core.procs[pid].(ended := true, code := code), t) else t == s
    case Observes(pid) => if pid in s.core.procs then ObserveLaw(s, pid, t) else t == s
    case _ => true
  }

  lemma SectionLawful(s: Host, e: Event)
    ensures SectionLaw(s, e, Step(s, e))
  {
    match e
    case Begin(probe) => SessionLawful(s, probe);
    case Exited(pid) =>
      if s.core.holder.Nobody? && pid in s.core.procs && s.core.procs[pid].monitor.Saw? {
        var m := s.core.procs[pid].monitor;
        ExitLawful(SetProcess(s, pid, s.core.procs[pid].(monitor := Gone)), pid, m.code, m.expected);
      }
    case BackoffEnds(probe) => BackoffLawful(s, probe);
    case Prints(pid, line) => if pid in s.core.procs { LineLawful(s, s.core.procs[pid].generation, line); }
    case Halted(ok) => if s.core.holder.Halting? { HaltLawful(s, s.core.holder.op, ok); }
    case Controlled(ok, saved, probe) => ControlledLawful(s, ok, saved, probe);
    case _ =>
  }

  lemma ControlledLawful(s: Host, ok: bool, saved: bool, probe: Probe)
    ensures SectionLaw(s, Controlled(ok, saved, probe), Step(s, Controlled(ok, saved, probe)))
  {
    if s.core.holder.Controlling? {
      match s.core.holder.op
      case Restart => RestartLawful(s, ok, saved, probe);
      case SwitchMode(service) => ModeLawful(s, service, ok, saved, probe);
      case _ =>
    }
  }

  lemma SignalLawful(s: Host, e: Event)
    ensures SignalLaw(s, e, Step(s, e))
  {
    if e.Ends? && e.pid in s.core.procs && s.core.procs[e.pid].ended { assert s.core.procs == s.core.procs[e.pid := s.core.procs[e.pid]]; }
  }

  /** Every event, in any state, does what the fields say. */
  lemma StepLawful(s: Host, e: Event)
    ensures SectionLaw(s, e, Step(s, e)) && SignalLaw(s, e, Step(s, e))
  {
    SectionLawful(s, e);
    SignalLawful(s, e);
  }

  /** A new supervisor has nothing and has been asked nothing. */
  lemma NewHostLawful(service: bool)
    ensures var s := NewHost(service);
      && s.core.child.None? && s.core.procs == map[] && s.core.nextPid == 0 && s.core.generation == 0 && s.core.holder == Nobody
      && s.flags == Flags(false, false, false, false) && s.budget.restarts == 0 && s.budget.respawns == 0 && s.budget.spawned == 0
      && s.service == service && !s.adopted && s.info.None? && s.readyAt.None? && s.phase == Idle && s.watchers == {} && s.now == 0.0
  {
  }

  // ------------------------------------------------------------ a restart prevails

  /** What other threads may do while a restart is under way. */
  predicate Bystanding(e: Event) { !e.Quit? && !e.Halted? && !e.Controlled? }

  predicate Bystand(es: seq<Event>) { forall i :: 0 <= i < |es| ==> Bystanding(es[i]) }

  /** A restart has the mutex, in process mode; nobody else gets past it. */
  predicate Restarting(s: Host) { s.core.holder == Halting(Restart) && !s.flags.quitting && !s.service }

  predicate Emptyhanded(s: Host) {
    s.core.holder == Controlling(Restart) && !s.flags.quitting && !s.service && s.core.child.None? && s.info.None?
  }

  /** Processes are only added, and counted. */
  predicate Grown(s: Host, t: Host) { t.core.nextPid == s.core.nextPid && t.budget.spawned == s.budget.spawned }

  lemma {:induction false} StaysStopping(s: Host, es: seq<Event>)
    requires Restarting(s) && Bystand(es)
    ensures Restarting(Run(s, es)) && Grown(s, Run(s, es))
  {
    if es != [] { StaysStopping(s, es[..|es| - 1]); }
  }

  lemma {:induction false} StaysEmptyhanded(s: Host, es: seq<Event>)
    requires Emptyhanded(s) && Bystand(es)
    ensures Emptyhanded(Run(s, es)) && Grown(s, Run(s, es))
  {
    if es != [] { StaysEmptyhanded(s, es[..|es| - 1]); }
  }

  /** The restart from its first section to its last, with what others do in between. */
  function RestartRun(first: seq<Event>, ok: bool, second: seq<Event>, saved: bool, probe: Probe): seq<Event> {
    ([Acquire(Restart)] + first + [Halted(ok)] + second) + [Controlled(true, saved, probe)]
  }

  lemma RestartSections(s: Host, first: seq<Event>, ok: bool, second: seq<Event>)
    ensures Run(s, [Acquire(Restart)] + first + [Halted(ok)] + second)
         == Run(Step(Run(Step(s, Acquire(Restart)), first), Halted(ok)), second)
  {
    var acquired := [Acquire(Restart)];
    assert [] + acquired == acquired;
    OneMore(s, [], Acquire(Restart));
    RunJoins(s, acquired, first);
    OneMore(s, acquired + first, Halted(ok));
    RunJoins(s, acquired + first + [Halted(ok)], second);
  }

  lemma BeforeTheLast(s: Host, first: seq<Event>, ok: bool, second: seq<Event>)
    requires s.core.holder.Nobody? && !s.flags.quitting && !s.service && Bystand(first) && Bystand(second)
    ensures var ready := Run(s, [Acquire(Restart)] + first + [Halted(ok)] + second); Emptyhanded(ready) && Grown(s, ready)
  {
    var acquired := Step(s, Acquire(Restart));
    StaysStopping(acquired, first);
    HaltLawful(Run(acquired, first), Restart, ok);
    StaysEmptyhanded(Step(Run(acquired, first), Halted(ok)), second);
    RestartSections(s, first, ok, second);
  }

  /** A backend that is up or on its way, as the machine answers, and no stop standing. */
  predicate Prevailed(s: Host, probe: Probe, t: Host) {
    && t.flags == NOTHING_ASKED && t.core.holder.Nobody? && t.budget.restarts == 0
    && (probe.adopts.Some? ==> t.phase == Up && t.info == probe.adopts)
    && (probe.adopts.None? && probe.spawns ==>
          && t.phase == Starting && t.core.child == Some(s.core.nextPid) && t.budget.spawned == s.budget.spawned + 1
          && s.core.nextPid in t.core.procs && !t.core.procs[s.core.nextPid].ended)
    && (probe.adopts.None? && !probe.spawns ==> t.phase == Down)
  }

  lemma TheLast(s: Host, ready: Host, saved: bool, probe: Probe)
    requires Emptyhanded(ready) && Grown(s, ready)
    ensures Prevailed(s, probe, Step(ready, Controlled(true, saved, probe)))
  {
    RestartLawful(ready, true, saved, probe);
  }

  /**
   In process mode, a restart that begins while nobody holds the mutex leaves no
   stop standing and a backend that is up or on its way, however stops, process
   ends, printed lines and time fall in between.
   */
  lemma RestartPrevails(s: Host, first: seq<Event>, ok: bool, second: seq<Event>, saved: bool, probe: Probe)
    requires s.core.holder.Nobody? && !s.flags.quitting && !s.service && Bystand(first) && Bystand(second)
    ensures Prevailed(s, probe, Run(s, RestartRun(first, ok, second, saved, probe)))
  {
    var before := [Acquire(Restart)] + first + [Halted(ok)] + second;
    BeforeTheLast(s, first, ok, second);
    TheLast(s, Run(s, before), saved, probe);
    OneMore(s, before, Controlled(true, saved, probe));
  }
}
