/**
 The desktop shell's supervisor of one backend process. Sections that hold the
 lifecycle mutex are cut where they sleep or call out; the flags that other
 threads set without the mutex change at any moment in between.
 */
module Supervisor {
  import opened Options

  const STABLE := 60.0
  const HOST_STOP := 79

  datatype Phase = Idle | Starting | Up | Stopping | Down
  datatype Op = Stop | Restart | SwitchMode(service: bool) | StopService

  /** Who holds the lifecycle mutex across a pause. */
  datatype Holder = Nobody | BackingOff(until: real) | Halting(op: Op) | Controlling(op: Op)

  /** A monitor thread, and what it read before it waits for the mutex. */
  datatype Monitor = Watching | Saw(code: Option<int>, expected: bool) | Gone

  /** A spawned process: the generation of its reader, and how it ended. */
  datatype Process = Process(generation: nat, ended: bool, code: Option<int>, monitor: Monitor)

  /** What the machine answers when a session is started. */
  datatype Probe = Probe(service: Option<nat>, adopts: Option<nat>, spawns: bool)

  datatype Line = Ready(port: nat) | HostStopping | HostStopCancelled | Other

  /** The child, every process ever spawned, and who holds the mutex. */
  datatype Core = Core(child: Option<nat>, procs: map<nat, Process>, nextPid: nat, generation: nat, holder: Holder)

  datatype Flags = Flags(stopRequested: bool, pending: bool, confirmed: bool, quitting: bool)

  /** `spawned` counts all spawns, `respawns` the automatic ones since the counter was reset. */
  datatype Budget = Budget(restarts: nat, respawns: nat, spawned: nat)

  datatype Host = Host(
    core: Core, flags: Flags, budget: Budget, service: bool, adopted: bool,
    info: Option<nat>, readyAt: Option<real>, phase: Phase, watchers: set<nat>, now: real)

  datatype Event =
    | Begin(probe: Probe)
    | RequestStop
    | Arm
    | Disarm
    | Quit
    | Elapse(dt: real)
    | Ends(pid: nat, code: Option<int>)
    | Observes(pid: nat)
    | Exited(pid: nat)
    | BackoffEnds(probe: Probe)
    | Prints(pid: nat, line: Line)
    | Acquire(op: Op)
    | Halted(ok: bool)
    | Controlled(ok: bool, saved: bool, probe: Probe)
    | ServiceLost(generation: nat)

  const NOTHING_ASKED := Flags(false, false, false, false)

  function NewHost(service: bool): Host {
    Host(Core(None, map[], 0, 0, Nobody), NOTHING_ASKED, Budget(0, 0, 0), service, false, None, None, Idle, {}, 0.0)
  }

  predicate Expected(f: Flags) { f.pending || f.confirmed }

  /** A stop is wanted: no automatic restart. */
  predicate Barred(f: Flags) { f.stopRequested || Expected(f) }

  function Failed(s: Host): Host { s.(phase := Down) }

  function BecomesReady(s: Host, port: nat): Host {
    s.(info := Some(port), readyAt := Some(s.now), phase := Up)
  }

  function NewChild(c: Core): Core {
    c.(child := Some(c.nextPid), procs := c.procs[c.nextPid := Process(c.generation, false, None, Watching)], nextPid := c.nextPid + 1)
  }

  function Spawn(s: Host): Host {
    s.(core := NewChild(s.core), adopted := false, phase := Starting, budget := s.budget.(spawned := s.budget.spawned + 1))
  }

  /** Attaches to the background service, and watches it. */
  function Attach(s: Host, port: Option<nat>): Host {
    if port.None? then Failed(s)
    else BecomesReady(s.(adopted := true, watchers := s.watchers + {s.core.generation}), port.value)
  }

  function NextGeneration(c: Core): Core { c.(generation := c.generation + 1) }

  function RunSession(s: Host, probe: Probe): Host {
    if s.flags.quitting || Barred(s.flags) || s.core.child.Some? || s.info.Some? then s
    else
      var next := s.(core := NextGeneration(s.core));
      if s.service then Attach(next, probe.service)
      else if probe.adopts.Some? then BecomesReady(next.(adopted := true), probe.adopts.value)
      else if probe.spawns then Spawn(next)
      else Failed(next.(adopted := false, phase := Starting))
  }

  function Hold(s: Host, holder: Holder): Host { s.(core := s.core.(holder := holder)) }

  predicate Stable(s: Host) { s.readyAt.Some? && s.now - s.readyAt.value > STABLE }

  function Delay(attempt: nat): real { if attempt <= 1 then 1.0 else 2.0 * Delay(attempt - 1) }

  /** One more attempt on the counter, which a stable backend has reset. */
  function Charged(b: Budget, stable: bool): Budget {
    if stable then b.(restarts := 1, respawns := 0) else b.(restarts := b.restarts + 1)
  }

  /** The child has crashed: restart it later, or give up. */
  function Crashed(s: Host): Host {
    var charged := s.(budget := Charged(s.budget, Stable(s)));
    if charged.budget.restarts > 3 then Failed(charged) else Hold(charged, BackingOff(s.now + Delay(charged.budget.restarts)))
  }

  function WithoutChild(c: Core): Core { c.(generation := c.generation + 1, child := None) }

  function OnExit(s: Host, pid: nat, code: Option<int>, expected: bool): Host {
    if s.core.child != Some(pid) then s
    else
      var gone := s.(core := WithoutChild(s.core), info := None,
                     flags := s.flags.(confirmed := s.flags.confirmed || code == Some(HOST_STOP)));
      if expected || Barred(gone.flags) then gone.(phase := Idle) else Crashed(gone)
  }

  function AfterBackoff(s: Host, probe: Probe): Host {
    var free := Hold(s, Nobody);
    if Barred(s.flags) then free
    else RunSession(free.(phase := Starting, budget := s.budget.(respawns := s.budget.respawns + 1)), probe)
  }

  function HandleLine(s: Host, generation: nat, line: Line): Host {
    if s.core.generation != generation then s
    else match line
      case Ready(port) => if s.flags.stopRequested || s.flags.quitting then s else BecomesReady(s, port)
      case HostStopping => s.(flags := s.flags.(confirmed := true))
      case HostStopCancelled => s.(flags := s.flags.(pending := false))
      case Other => s
  }

  function BeginHalt(s: Host, op: Op): Host {
    s.(flags := s.flags.(stopRequested := true), core := NextGeneration(s.core).(holder := Halting(op)),
       phase := if s.phase != Idle then Stopping else Idle)
  }

  function Ended(p: Process, code: Option<int>): Process { if p.ended then p else p.(ended := true, code := code) }

  /** The child, if any, is killed and reaped. */
  function Reaped(c: Core): Core {
    c.(child := None,
       procs := if c.child.Some? && c.child.value in c.procs
                then c.procs[c.child.value := Ended(c.procs[c.child.value], None)] else c.procs)
  }

  function Halt(s: Host): Host {
    s.(core := Reaped(s.core), info := None, readyAt := None, phase := Idle)
  }

  function AfterHalt(s: Host, op: Op, ok: bool): Host {
    var free := Hold(Halt(s), Nobody);
    match op
    case Stop => free
    case StopService => if ok then free else Failed(free)
    case Restart => if s.flags.quitting then free else Hold(free, Controlling(op))
    case SwitchMode(_) => Hold(free, Controlling(op))
  }

  function Cleared(s: Host): Host { s.(flags := NOTHING_ASKED.(quitting := s.flags.quitting)) }

  function AfterControl(s: Host, op: Op, ok: bool, saved: bool, probe: Probe): Host {
    var free := Hold(s, Nobody);
    match op
    case Restart =>
      if s.service && !ok then Failed(free)
      else RunSession(Cleared(free).(budget := s.budget.(restarts := 0, respawns := 0), phase := Starting), probe)
    case SwitchMode(service) =>
      if service then
        if !saved then Failed(free)
        else if !ok then Failed(free.(service := true))
        else RunSession(Cleared(free).(service := true), probe)
      else
        if !ok || !saved then Failed(free) else RunSession(Cleared(free).(service := false), probe)
    case _ => free
  }

  function SetProcess(s: Host, pid: nat, p: Process): Host { s.(core := s.core.(procs := s.core.procs[pid := p])) }

  function Observe(s: Host, pid: nat): Host
    requires pid in s.core.procs
  {
    var p := s.core.procs[pid];
    if !p.monitor.Watching? then s
    else if s.core.child != Some(pid) then SetProcess(s, pid, p.(monitor := Gone))
    else if p.ended then SetProcess(s, pid, p.(monitor := Saw(p.code, s.flags.stopRequested)))
    else s
  }

  /** What other threads do without the mutex. */
  function Signal(s: Host, e: Event): Host {
    match e
    case RequestStop => s.(flags := s.flags.(stopRequested := true))
    case Arm => s.(flags := s.flags.(pending := true))
    case Disarm => s.(flags := s.flags.(pending := false))
    case Quit => s.(flags := s.flags.(quitting := true))
    case Elapse(dt) => if dt >= 0.0 then s.(now := s.now + dt) else s
    case _ => s
  }

  /** An event that its thread cannot take yet leaves everything as it is. */
  function Step(s: Host, e: Event): Host {
    var c := s.core;
    match e
    case Begin(probe) => if c.holder.Nobody? then RunSession(s, probe) else s
    case Ends(pid, code) => if pid in c.procs then SetProcess(s, pid, Ended(c.procs[pid], code)) else s
    case Observes(pid) => if pid in c.procs then Observe(s, pid) else s
    case Exited(pid) =>
      if c.holder.Nobody? && pid in c.procs && c.procs[pid].monitor.Saw? then
        var m := c.procs[pid].monitor;
        OnExit(SetProcess(s, pid, c.procs[pid].(monitor := Gone)), pid, m.code, m.expected)
      else s
    case BackoffEnds(probe) => if c.holder.BackingOff? && s.now >= c.holder.until then AfterBackoff(s, probe) else s
    case Prints(pid, line) => if c.holder.Nobody? && pid in c.procs then HandleLine(s, c.procs[pid].generation, line) else s
    case Acquire(op) => if c.holder.Nobody? then BeginHalt(s, op) else s
    case Halted(ok) => if c.holder.Halting? then AfterHalt(s, c.holder.op, ok) else s
    case Controlled(ok, saved, probe) => if c.holder.Controlling? then AfterControl(s, c.holder.op, ok, saved, probe) else s
    case ServiceLost(generation) =>
      if c.holder.Nobody? && generation in s.watchers && c.generation == generation && !s.flags.quitting
      then Failed(s.(info := None)) else s
    case _ => Signal(s, e)
  }

  function Run(s: Host, es: seq<Event>): Host {
    if es == [] then s else Step(Run(s, es[..|es| - 1]), es[|es| - 1])
  }
}
