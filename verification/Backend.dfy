/**
 The supervisor object: fields behind mutexes and atomics, changed by several
 threads. A method is one stretch of a thread between two pauses.
 */
module Backends {
  import opened Options
  import opened Supervisor
  import opened SupervisorLaws

  class Backend {
    var child: Option<nat>
    var procs: map<nat, Process>
    var nextPid: nat
    var generation: nat
    var holder: Holder
    var stopRequested: bool
    var shutdownPending: bool
    var shutdownConfirmed: bool
    var quitting: bool
    var restarts: nat
    var respawns: nat
    var spawned: nat
    var service: bool
    var adopted: bool
    var info: Option<nat>
    var readyAt: Option<real>
    var phase: Phase
    var watchers: set<nat>
    var now: real

    ghost function View(): Host
      reads this
    {
      Host(Core(child, procs, nextPid, generation, holder),
           Flags(stopRequested, shutdownPending, shutdownConfirmed, quitting),
           Budget(restarts, respawns, spawned), service, adopted, info, readyAt, phase, watchers, now)
    }

    constructor (background: bool)
      ensures View() == NewHost(background)
    {
      child, procs, nextPid, generation, holder := None, map[], 0, 0, Nobody;
      stopRequested, shutdownPending, shutdownConfirmed, quitting := false, false, false, false;
      restarts, respawns, spawned := 0, 0, 0;
      service, adopted, info, readyAt, phase, watchers, now := background, false, None, None, Idle, {}, 0.0;
    }

    method ArmExpectedShutdown()
      modifies this`shutdownPending
      ensures View() == Step(old(View()), Arm)
    {
      shutdownPending := true;
    }

    method DisarmExpectedShutdown()
      modifies this`shutdownPending
      ensures View() == Step(old(View()), Disarm)
    {
      shutdownPending := false;
    }

    method HandleReady(port: nat)
      modifies this`info, this`readyAt, this`phase
      ensures View() == BecomesReady(old(View()), port)
    {
      info, readyAt, phase := Some(port), Some(now), Up;
    }

    method Fail()
      modifies this`phase
      ensures View() == Failed(old(View()))
    {
      phase := Down;
    }

    method SpawnBackend()
      modifies this`adopted, this`phase, this`procs, this`child, this`nextPid, this`spawned
      ensures View() == Spawn(old(View()))
    {
      adopted, phase := false, Starting;
      procs := procs[nextPid := Process(generation, false, None, Watching)];
      child, nextPid, spawned := Some(nextPid), nextPid + 1, spawned + 1;
    }

    method RunSessionInner(probe: Probe)
      modifies this
      ensures View() == RunSession(old(View()), probe)
      ensures old(child).Some? ==> spawned == old(spawned) && child == old(child)
      ensures SessionLaw(old(View()), probe, View())
    {
      SessionLawful(View(), probe);
      if quitting || stopRequested || shutdownPending || shutdownConfirmed { return; }
      if child.Some? || info.Some? { return; }
      generation := generation + 1;
      if service {
        if probe.service.None? { Fail(); return; }
        adopted, watchers := true, watchers + {generation};
        HandleReady(probe.service.value);
        return;
      }
      if probe.adopts.Some? {
        adopted := true;
        HandleReady(probe.adopts.value);
      } else if probe.spawns {
        SpawnBackend();
      } else {
        adopted, phase := false, Starting;
        Fail();
      }
    }

    /** An exit nobody wanted: charge it, and wait before the next attempt. */
    method ChargeCrash()
      modifies this`restarts, this`respawns, this`phase, this`holder
      ensures View() == Crashed(old(View()))
    {
      var stable := readyAt.Some? && now - readyAt.value > 60.0;
      if stable { restarts, respawns := 0, 0; }
      restarts := restarts + 1;
      if restarts > 3 {
        Fail();
      } else {
        holder := BackingOff(now + Delay(restarts));
      }
    }

    /** The child is gone; its status may say that the stop was meant. */
    method DropChild(code: Option<int>)
      modifies this`generation, this`child, this`info, this`shutdownConfirmed
      ensures View() == old(View()).(core := WithoutChild(old(View()).core), info := None,
        flags := old(View()).flags.(confirmed := old(View()).flags.confirmed || code == Some(HOST_STOP)))
    {
      if code == Some(79) { shutdownConfirmed := true; }
      generation, child, info := generation + 1, None, None;
    }

    /** The monitor of `pid` has the mutex. */
    method HandleExit(pid: nat, code: Option<int>, expected: bool)
      modifies this
      ensures View() == OnExit(old(View()), pid, code, expected)
      ensures code == Some(79) && old(child) == Some(pid) ==> shutdownConfirmed && child.None? && holder == old(holder)
      ensures ExitLaw(old(View()), pid, code, expected, View())
    {
      ExitLawful(View(), pid, code, expected);
      if child != Some(pid) { return; }
      DropChild(code);
      if expected || stopRequested || shutdownPending || shutdownConfirmed {
        phase := Idle;
        return;
      }
      ChargeCrash();
    }

    /** The delay before an automatic restart is over. */
    method Resume(probe: Probe)
      modifies this
      ensures View() == AfterBackoff(old(View()), probe)
      ensures old(stopRequested) || old(shutdownPending) || old(shutdownConfirmed) ==> spawned == old(spawned) && respawns == old(respawns)
      ensures BackoffLaw(old(View()), probe, View())
    {
      BackoffLawful(View(), probe);
      holder := Nobody;
      if stopRequested || shutdownPending || shutdownConfirmed { return; }
      phase, respawns := Starting, respawns + 1;
      RunSessionInner(probe);
    }

    method HandleStdout(line: Line, reader: nat)
      modifies this
      ensures View() == HandleLine(old(View()), reader, line)
      ensures old(generation) != reader ==> info == old(info) && shutdownConfirmed == old(shutdownConfirmed)
      ensures LineLaw(old(View()), reader, line, View())
    {
      LineLawful(View(), reader, line);
      if generation != reader { return; }
      match line
      case HostStopCancelled => DisarmExpectedShutdown();
      case HostStopping => shutdownConfirmed := true;
      case Ready(port) =>
        if stopRequested || quitting { return; }
        HandleReady(port);
      case Other =>
    }

    method BeginStop(op: Op)
      modifies this
      ensures View() == BeginHalt(old(View()), op)
    {
      stopRequested, generation, holder := true, generation + 1, Halting(op);
      if phase != Idle { phase := Stopping; }
    }

    /** The child has exited or its time is up: kill what is left of it. */
    method StopChild()
      modifies this`procs, this`child, this`info, this`readyAt, this`phase
      ensures View() == Halt(old(View()))
    {
      if child.Some? && child.value in procs {
        if !procs[child.value].ended {
          procs := procs[child.value := procs[child.value].(ended := true, code := None)];
        }
      }
      child, info, readyAt, phase := None, None, None, Idle;
    }

    method AfterStop(op: Op, ok: bool)
      modifies this
      ensures View() == AfterHalt(old(View()), op, ok)
      ensures child.None? && info.None? && readyAt.None? && spawned == old(spawned)
      ensures HaltLaw(old(View()), op, ok, View())
    {
      HaltLawful(View(), op, ok);
      StopChild();
      holder := Nobody;
      match op
      case Stop =>
      case StopService => if !ok { Fail(); }
      case Restart => if !quitting { holder := Controlling(op); }
      case SwitchMode(_) => holder := Controlling(op);
    }

    method Reopen(probe: Probe)
      modifies this
      ensures View() == RunSession(Cleared(old(View())), probe)
    {
      stopRequested, shutdownPending, shutdownConfirmed := false, false, false;
      RunSessionInner(probe);
    }

    method Release()
      modifies this`holder
      ensures View() == Hold(old(View()), Nobody)
    {
      holder := Nobody;
    }

    method ForgetCrashes()
      modifies this`restarts, this`respawns, this`phase
      ensures View() == old(View()).(budget := old(View()).budget.(restarts := 0, respawns := 0), phase := Starting)
    {
      restarts, respawns, phase := 0, 0, Starting;
    }

    method FinishRestart(ok: bool, probe: Probe)
      modifies this
      ensures View() == AfterControl(old(View()), Restart, ok, true, probe)
      ensures RestartLaw(old(View()), ok, probe, View())
    {
      RestartLawful(View(), ok, true, probe);
      Release();
      if service && !ok { Fail(); return; }
      ForgetCrashes();
      Reopen(probe);
    }

    method FinishModeChange(enabled: bool, ok: bool, saved: bool, probe: Probe)
      modifies this
      ensures View() == AfterControl(old(View()), SwitchMode(enabled), ok, saved, probe)
      ensures spawned <= old(spawned) + 1 && (!ok || !saved ==> spawned == old(spawned))
      ensures ModeLaw(old(View()), enabled, ok, saved, probe, View())
    {
      ModeLawful(View(), enabled, ok, saved, probe);
      holder := Nobody;
      if enabled {
        if !saved { Fail(); return; }
        service := true;
        if !ok { Fail(); return; }
      } else {
        if !ok || !saved { Fail(); return; }
        service := false;
      }
      Reopen(probe);
    }
  }
}
