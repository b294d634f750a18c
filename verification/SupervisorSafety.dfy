/** What every interleaving of the supervisor's threads keeps. */
module SupervisorSafety {
  import opened Options
  import opened Supervisor

  /** The only process that may be alive is the child. */
  ghost predicate OneChild(c: Core) {
    && (forall p :: p in c.procs ==> p < c.nextPid)
    && (c.child.Some? ==> c.child.value in c.procs)
    && (forall p :: p in c.procs && !c.procs[p].ended ==> c.child == Some(p))
  }

  /** Only the child's reader has the current generation. */
  ghost predicate OneReader(c: Core) {
    && (forall p :: p in c.procs ==> c.procs[p].generation <= c.generation)
    && (forall p :: p in c.procs && c.procs[p].generation == c.generation ==> c.child == Some(p) && !c.holder.Halting?)
    && (c.holder.BackingOff? || c.holder.Controlling? ==> c.child.None?)
  }

  /** A monitor only reports the end of a process that has ended. */
  ghost predicate Observant(c: Core) {
    forall p :: p in c.procs && c.procs[p].monitor.Saw? ==> c.procs[p].ended && c.procs[p].code == c.procs[p].monitor.code
  }

  ghost predicate Tidy(c: Core) { OneChild(c) && OneReader(c) && Observant(c) }

  predicate Budgeted(h: Holder, b: Budget) {
    && b.respawns <= b.restarts && b.respawns <= 3
    && (h.BackingOff? ==> b.respawns < b.restarts <= 3)
  }

  /** A stop in progress was asked for. */
  predicate Asked(h: Holder, f: Flags) { h.Halting? || h.Controlling? ==> f.stopRequested }

  ghost predicate Orderly(s: Host) {
    Tidy(s.core) && Budgeted(s.core.holder, s.budget) && Asked(s.core.holder, s.flags)
  }

  // -------------------------------------------------------------- the core

  lemma SpawnKeeps(c: Core)
    requires Tidy(c) && c.child.None? && c.holder.Nobody?
    ensures Tidy(NewChild(NextGeneration(c)))
  {
  }

  lemma MonitorKeeps(c: Core, pid: nat, monitor: Monitor)
    requires Tidy(c) && pid in c.procs && (monitor.Saw? ==> c.procs[pid].ended && c.procs[pid].code == monitor.code)
    ensures Tidy(c.(procs := c.procs[pid := c.procs[pid].(monitor := monitor)]))
  {
  }

  lemma EndKeeps(c: Core, pid: nat, code: Option<int>)
    requires Tidy(c) && pid in c.procs
    ensures Tidy(c.(procs := c.procs[pid := Ended(c.procs[pid], code)]))
  {
  }

  lemma ExitKeeps(c: Core)
    requires Tidy(c) && c.holder.Nobody? && c.child.Some? && c.procs[c.child.value].ended
    ensures Tidy(WithoutChild(c)) && Tidy(WithoutChild(c).(holder := BackingOff(0.0)))
  {
  }

  lemma HeldKeeps(c: Core, holder: Holder)
    requires Tidy(c) && c.child.None? && !holder.Halting?
    ensures Tidy(c.(holder := holder))
  {
  }

  lemma ReapKeeps(c: Core)
    requires Tidy(c) && c.holder.Halting?
    ensures Tidy(Reaped(c)) && Reaped(c).child.None?
  {
  }

  // -------------------------------------------------------------- one section

  lemma SessionKeeps(s: Host, probe: Probe)
    requires Orderly(s) && s.core.holder.Nobody?
    ensures Orderly(RunSession(s, probe))
  {
    if s.core.child.None? { SpawnKeeps(s.core); }
  }

  lemma OnExitKeeps(s: Host, pid: nat, code: Option<int>, expected: bool)
    requires Orderly(s) && s.core.holder.Nobody? && (s.core.child == Some(pid) ==> s.core.procs[pid].ended)
    ensures Orderly(OnExit(s, pid, code, expected))
  {
    if s.core.child == Some(pid) {
      ExitKeeps(s.core);
      HeldKeeps(WithoutChild(s.core), OnExit(s, pid, code, expected).core.holder);
    }
  }

  lemma AfterHaltKeeps(s: Host, ok: bool)
    requires Orderly(s) && s.core.holder.Halting?
    ensures Orderly(AfterHalt(s, s.core.holder.op, ok))
  {
    ReapKeeps(s.core);
    HeldKeeps(Reaped(s.core), Nobody);
    HeldKeeps(Reaped(s.core), Controlling(s.core.holder.op));
  }

  lemma AfterControlKeeps(s: Host, ok: bool, saved: bool, probe: Probe)
    requires Orderly(s) && s.core.holder.Controlling?
    ensures Orderly(AfterControl(s, s.core.holder.op, ok, saved, probe))
  {
    HeldKeeps(s.core, Nobody);
    var clear := Cleared(Hold(s, Nobody));
    match s.core.holder.op
    case Restart => SessionKeeps(clear.(budget := s.budget.(restarts := 0, respawns := 0), phase := Starting), probe);
    case SwitchMode(service) => SessionKeeps(clear.(service := service), probe);
    case _ =>
  }

  lemma AfterBackoffKeeps(s: Host, probe: Probe)
    requires Orderly(s) && s.core.holder.BackingOff?
    ensures Orderly(AfterBackoff(s, probe))
  {
    HeldKeeps(s.core, Nobody);
    SessionKeeps(Hold(s, Nobody).(phase := Starting, budget := s.budget.(respawns := s.budget.respawns + 1)), probe);
  }

  lemma ThreadStepKeeps(s: Host, e: Event)
    requires Orderly(s) && (e.Ends? || e.Observes? || e.Exited?)
    ensures Orderly(Step(s, e))
  {
    if e.pid in s.core.procs {
      var p := s.core.procs[e.pid];
      match e
      case Ends(pid, code) => EndKeeps(s.core, pid, code);
      case Observes(pid) =>
        MonitorKeeps(s.core, pid, Gone);
        if p.ended { MonitorKeeps(s.core, pid, Saw(p.code, s.flags.stopRequested)); }
      case Exited(pid) =>
        MonitorKeeps(s.core, pid, Gone);
        if s.core.holder.Nobody? && p.monitor.Saw? {
          OnExitKeeps(SetProcess(s, pid, p.(monitor := Gone)), pid, p.monitor.code, p.monitor.expected);
        }
    }
  }

  lemma SectionKeeps(s: Host, e: Event)
    requires Orderly(s) && (e.Begin? || e.BackoffEnds? || e.Acquire? || e.Halted? || e.Controlled?)
    ensures Orderly(Step(s, e))
  {
    match e
    case Begin(probe) => if s.core.holder.Nobody? { SessionKeeps(s, probe); }
    case BackoffEnds(probe) => if s.core.holder.BackingOff? { AfterBackoffKeeps(s, probe); }
    case Acquire(op) =>
    case Halted(ok) => if s.core.holder.Halting? { AfterHaltKeeps(s, ok); }
    case Controlled(ok, saved, probe) => if s.core.holder.Controlling? { AfterControlKeeps(s, ok, saved, probe); }
  }

  predicate Minor(e: Event) {
    e.RequestStop? || e.Arm? || e.Disarm? || e.Quit? || e.Elapse? || e.Prints? || e.ServiceLost?
  }

  lemma MinorStep(s: Host, e: Event)
    requires Minor(e)
    ensures Step(s, e).core == s.core && Step(s, e).budget == s.budget
    ensures s.flags.stopRequested ==> Step(s, e).flags.stopRequested
  {
  }

  lemma StepKeeps(s: Host, e: Event)
    requires Orderly(s)
    ensures Orderly(Step(s, e))
  {
    if Minor(e) { MinorStep(s, e); }
    else if e.Ends? || e.Observes? || e.Exited? { ThreadStepKeeps(s, e); }
    else { SectionKeeps(s, e); }
  }

  /** In every interleaving: at most one live child, one reader that is listened to, a bounded budget. */
  lemma {:induction false} EveryRunIsOrderly(service: bool, es: seq<Event>)
    ensures Orderly(Run(NewHost(service), es))
  {
    if es != [] {
      EveryRunIsOrderly(service, es[..|es| - 1]);
      StepKeeps(Run(NewHost(service), es[..|es| - 1]), es[|es| - 1]);
    }
  }

  // ------------------------------------------------------------ main results

  /** Every process but the child has ended. */
  lemma AtMostOneLiveChild(service: bool, es: seq<Event>, p: nat, q: nat)
    requires var c := Run(NewHost(service), es).core;
             p in c.procs && q in c.procs && !c.procs[p].ended && !c.procs[q].ended
    ensures p == q && Run(NewHost(service), es).core.child == Some(p)
  {
    EveryRunIsOrderly(service, es);
  }

  /** Printed lines count only when they come from the child itself. */
  lemma OnlyTheChildIsHeard(s: Host, pid: nat, line: Line)
    requires Orderly(s) && Step(s, Prints(pid, line)) != s
    ensures s.core.child == Some(pid)
    ensures line.Ready? ==> Step(s, Prints(pid, line)).info == Some(line.port) && !s.flags.stopRequested
  {
  }

  /** Between two resets of the counter there are never more than three automatic restarts. */
  lemma RespawnsAreBounded(service: bool, es: seq<Event>)
    ensures Run(NewHost(service), es).budget.respawns <= 3
  {
    EveryRunIsOrderly(service, es);
  }

  /** Every automatic restart is charged. */
  lemma RespawnsAreCharged(s: Host, e: Event)
    requires Step(s, e).budget.respawns > s.budget.respawns
    ensures e.BackoffEnds? && Step(s, e).budget == s.budget.(respawns := s.budget.respawns + 1, spawned := Step(s, e).budget.spawned)
  {
    if Minor(e) { MinorStep(s, e); }
  }

  /** The counter goes back only after a stable stretch, or when the user restarts. */
  lemma OnlyTheseReset(s: Host, e: Event)
    requires Step(s, e).budget.respawns < s.budget.respawns || Step(s, e).budget.restarts < s.budget.restarts
    ensures (e.Exited? && Stable(s)) || (e.Controlled? && s.core.holder == Controlling(Restart))
  {
    if Minor(e) { MinorStep(s, e); }
  }

  // --------------------------------------------------- an intended host stop

  predicate Resets(s: Host, e: Event) {
    e.Controlled? && s.core.holder.Controlling?
  }

  /** The backend said, or its exit status will say, that its stop is meant. */
  predicate MeantToStop(s: Host) {
    || s.flags.confirmed || s.flags.stopRequested
    || (s.core.child.Some? && s.core.child.value in s.core.procs
        && s.core.procs[s.core.child.value].ended && s.core.procs[s.core.child.value].code == Some(HOST_STOP))
  }

  predicate NoSpawn(s: Host, t: Host) { t.core.nextPid == s.core.nextPid && t.budget.spawned == s.budget.spawned }

  lemma SessionStaysDown(s: Host, probe: Probe)
    requires MeantToStop(s)
    ensures RunSession(s, probe) == s
  {
  }

  lemma ExitStaysDown(s: Host, pid: nat)
    requires Orderly(s) && MeantToStop(s)
    ensures var t := Step(s, Exited(pid)); MeantToStop(t) && NoSpawn(s, t) && !(t.core.holder.BackingOff? && !s.core.holder.BackingOff?)
  {
  }

  lemma ProcessStaysDown(s: Host, e: Event)
    requires Orderly(s) && MeantToStop(s) && (e.Ends? || e.Observes?)
    ensures MeantToStop(Step(s, e)) && NoSpawn(s, Step(s, e))
  {
  }

  lemma MinorStaysDown(s: Host, e: Event)
    requires MeantToStop(s) && Minor(e)
    ensures MeantToStop(Step(s, e))
  {
  }

  lemma SectionStaysDown(s: Host, e: Event)
    requires Orderly(s) && MeantToStop(s) && (e.Begin? || e.BackoffEnds? || e.Acquire? || e.Halted?)
    ensures MeantToStop(Step(s, e)) && NoSpawn(s, Step(s, e))
  {
    match e
    case Begin(probe) => SessionStaysDown(s, probe);
    case BackoffEnds(probe) => assert s.core.holder.BackingOff? ==> Barred(s.flags);
    case Acquire(op) =>
    case Halted(ok) => if s.core.holder.Halting? { HaltingWasAsked(s, ok); }
  }

  lemma HaltingWasAsked(s: Host, ok: bool)
    requires Orderly(s) && MeantToStop(s) && s.core.holder.Halting? && s.flags.stopRequested
    ensures MeantToStop(AfterHalt(s, s.core.holder.op, ok)) && NoSpawn(s, AfterHalt(s, s.core.holder.op, ok))
  {
  }

  lemma StepStaysDown(s: Host, e: Event)
    requires Orderly(s) && MeantToStop(s) && !Resets(s, e)
    ensures MeantToStop(Step(s, e)) && NoSpawn(s, Step(s, e))
  {
    if Minor(e) { MinorStaysDown(s, e); MinorStep(s, e); }
    else if e.Exited? { ExitStaysDown(s, e.pid); }
    else if e.Ends? || e.Observes? { ProcessStaysDown(s, e); }
    else if !e.Controlled? { SectionStaysDown(s, e); }
  }

  lemma OneMore(s: Host, es: seq<Event>, e: Event)
    ensures Run(s, es + [e]) == Step(Run(s, es), e)
  {
    assert (es + [e])[..|es|] == es;
  }

  lemma {:induction false} RunJoins(s: Host, es: seq<Event>, fs: seq<Event>)
    ensures Run(s, es + fs) == Run(Run(s, es), fs)
  {
    if fs == [] {
      assert es + fs == es;
    } else {
      RunJoins(s, es, fs[..|fs| - 1]);
      assert es + fs == es + fs[..|fs| - 1] + [fs[|fs| - 1]];
      OneMore(s, es + fs[..|fs| - 1], fs[|fs| - 1]);
    }
  }

  predicate ResetsAt(s: Host, es: seq<Event>, i: nat)
    requires i < |es|
  {
    Resets(Run(s, es[..i]), es[i])
  }

  ghost predicate NeverResets(s: Host, es: seq<Event>) {
    forall i :: 0 <= i < |es| ==> !ResetsAt(s, es, i)
  }

  lemma NeverResetsBefore(s: Host, es: seq<Event>)
    requires es != [] && NeverResets(s, es)
    ensures NeverResets(s, es[..|es| - 1])
  {
    var before := es[..|es| - 1];
    forall i | 0 <= i < |before| ensures !ResetsAt(s, before, i) {
      assert !ResetsAt(s, es, i);
      assert before[..i] == es[..i];
    }
  }

  /**
   After a backend ends with the host-stop status, nothing is spawned until a
   restart or a mode change gets to start a session: whatever the order in
   which the exit, its printed lines and other threads' flags are seen.
   */
  lemma {:induction false} MeantStopsAreFinal(s: Host, es: seq<Event>)
    requires Orderly(s) && MeantToStop(s) && NeverResets(s, es)
    ensures var t := Run(s, es); Orderly(t) && MeantToStop(t) && NoSpawn(s, t)
  {
    if es != [] {
      NeverResetsBefore(s, es);
      MeantStopsAreFinal(s, es[..|es| - 1]);
      var t := Run(s, es[..|es| - 1]);
      assert !ResetsAt(s, es, |es| - 1);
      StepKeeps(t, es[|es| - 1]);
      StepStaysDown(t, es[|es| - 1]);
    }
  }

  lemma HostStopIsMeant(s: Host, code: Option<int>)
    requires Orderly(s) && s.core.child.Some? && !s.core.procs[s.core.child.value].ended && code == Some(HOST_STOP)
    ensures MeantToStop(Step(s, Ends(s.core.child.value, code)))
  {
  }

  // ------------------------------------------------------- a stale ready mark

  /** The counter is reset exactly when a ready mark, whoever left it, is older than a minute. */
  lemma ResetExactly(s: Host, pid: nat)
    requires s.core.holder.Nobody? && s.core.child == Some(pid) && pid in s.core.procs && s.core.procs[pid].monitor.Saw?
    requires !s.core.procs[pid].monitor.expected && !Barred(s.flags) && s.core.procs[pid].monitor.code != Some(HOST_STOP)
    requires s.budget.restarts >= 1
    ensures Step(s, Exited(pid)).budget.restarts == 1 <==> s.readyAt.Some? && s.now - s.readyAt.value > STABLE
  {
  }

  /** An ordinary host with a live child. */
  predicate Ordinary(s: Host) {
    && s.core.holder.Nobody? && !s.flags.quitting && !Barred(s.flags) && !s.service
    && s.core.child.Some? && s.core.child.value in s.core.procs
    && s.core.child.value < s.core.nextPid
    && s.core.procs[s.core.child.value] == Process(s.core.generation, false, None, Watching)
  }

  predicate StaleMark(s: Host) { Ordinary(s) && Stable(s) }

  const SPAWNS := Probe(None, None, true)

  /** The child crashes without a word and is replaced. */
  function CrashCycle(pid: nat): seq<Event> {
    [Ends(pid, Some(1)), Observes(pid), Exited(pid), Elapse(1.0), BackoffEnds(SPAWNS)]
  }

  function AfterCycle(s: Host): Host
    requires s.core.child.Some?
  {
    var pid := s.core.child.value;
    Step(Step(Step(Step(Step(s, Ends(pid, Some(1))), Observes(pid)), Exited(pid)), Elapse(1.0)), BackoffEnds(SPAWNS))
  }

  lemma RunTwo(s: Host, a: Event, b: Event)
    ensures Run(s, [a, b]) == Step(Step(s, a), b)
  {
    assert [] + [a] == [a] && [a] + [b] == [a, b];
    OneMore(s, [], a);
    OneMore(s, [a], b);
  }

  lemma RunThree(s: Host, a: Event, b: Event, c: Event)
    ensures Run(s, [a, b, c]) == Step(Step(Step(s, a), b), c)
  {
    assert [a, b] + [c] == [a, b, c];
    RunTwo(s, a, b);
    OneMore(s, [a, b], c);
  }

  lemma CycleRuns(s: Host)
    requires s.core.child.Some?
    ensures Run(s, CrashCycle(s.core.child.value)) == AfterCycle(s)
  {
    var pid := s.core.child.value;
    var a, b := [Ends(pid, Some(1)), Observes(pid), Exited(pid)], [Elapse(1.0), BackoffEnds(SPAWNS)];
    RunThree(s, a[0], a[1], a[2]);
    RunTwo(Run(s, a), b[0], b[1]);
    RunJoins(s, a, b);
    assert a + b == CrashCycle(pid);
  }

  lemma CycleKeepsStale(s: Host)
    requires StaleMark(s)
    ensures StaleMark(AfterCycle(s)) && AfterCycle(s).budget.spawned == s.budget.spawned + 1
  {
    var pid := s.core.child.value;
    var a := Step(s, Ends(pid, Some(1)));
    var b := Step(a, Observes(pid));
    var c := Step(b, Exited(pid));
    assert c.core.holder == BackingOff(s.now + 1.0) && c.budget.restarts == 1;
    var d := Step(c, Elapse(1.0));
    assert d.core.holder == BackingOff(d.now) && d.core.child.None? && d.info.None?;
  }

  lemma OneCycle(s: Host) returns (next: Host)
    requires StaleMark(s)
    ensures next == Run(s, CrashCycle(s.core.child.value)) && StaleMark(next) && next.budget.spawned == s.budget.spawned + 1
  {
    CycleRuns(s);
    CycleKeepsStale(s);
    next := AfterCycle(s);
  }

  /** Neither the user nor a ready backend has a hand in it. */
  predicate Unready(e: Event) {
    !e.Begin? && !e.Controlled? && (e.Prints? ==> !e.line.Ready?) && (e.BackoffEnds? ==> e.probe.adopts.None?)
  }

  ghost predicate AllUnready(es: seq<Event>) { forall e :: e in es ==> Unready(e) }

  /** From a stale mark, any number of crashes in a row are restarted, though no child was ever ready. */
  lemma {:induction false} StaleMarkNeverGivesUp(s: Host, n: nat) returns (es: seq<Event>)
    requires StaleMark(s)
    ensures Run(s, es).budget.spawned == s.budget.spawned + n
    ensures AllUnready(es)
    decreases n
  {
    if n == 0 {
      es := [];
    } else {
      var next := OneCycle(s);
      var rest := StaleMarkNeverGivesUp(next, n - 1);
      RunJoins(s, CrashCycle(s.core.child.value), rest);
      es := CrashCycle(s.core.child.value) + rest;
    }
  }

  /** A host whose backend was once ready for over a minute is such a host. */
  lemma StaleMarkIsReached() returns (es: seq<Event>)
    ensures StaleMark(Run(NewHost(false), es))
  {
    var first := NewHost(false);
    var a := Step(first, Begin(SPAWNS));
    var b := Step(a, Prints(0, Ready(8000)));
    es := [Begin(SPAWNS), Prints(0, Ready(8000)), Elapse(61.0)];
    OneMore(first, [], Begin(SPAWNS));
    OneMore(first, [Begin(SPAWNS)], Prints(0, Ready(8000)));
    OneMore(first, [Begin(SPAWNS), Prints(0, Ready(8000))], Elapse(61.0));
    assert [] + [Begin(SPAWNS)] == [Begin(SPAWNS)];
    assert [Begin(SPAWNS)] + [Prints(0, Ready(8000))] == [Begin(SPAWNS), Prints(0, Ready(8000))];
    assert [Begin(SPAWNS), Prints(0, Ready(8000))] + [Elapse(61.0)] == es;
  }

  // -------------------------------------------- without a mark, it does give up

  /** No ready mark, and nothing that could leave one or reset the counter. */
  lemma UnreadyStep(s: Host, e: Event)
    requires Orderly(s) && s.readyAt.None? && !s.service && Unready(e)
    ensures var t := Step(s, e);
            && t.readyAt.None? && !t.service && t.budget.restarts >= s.budget.restarts
            && t.budget.spawned - s.budget.spawned <= t.budget.respawns - s.budget.respawns
  {
    if Minor(e) { MinorStep(s, e); }
  }

  /** A backend that never becomes ready is respawned at most three times. */
  lemma {:induction false} UnreadyGivesUp(s: Host, es: seq<Event>)
    requires Orderly(s) && s.readyAt.None? && !s.service
    requires AllUnready(es)
    ensures var t := Run(s, es);
            && Orderly(t) && t.readyAt.None? && !t.service
            && t.budget.spawned - s.budget.spawned <= t.budget.respawns - s.budget.respawns
            && t.budget.spawned <= s.budget.spawned + 3
  {
    if es != [] {
      UnreadyGivesUp(s, es[..|es| - 1]);
      var t := Run(s, es[..|es| - 1]);
      UnreadyStep(t, es[|es| - 1]);
      StepKeeps(t, es[|es| - 1]);
    }
  }

  /** A backend that is not ready again is respawned at most three times, whatever happens. */
  ghost predicate GivesUp(s: Host) {
    forall es :: AllUnready(es) ==> Run(s, es).budget.spawned <= s.budget.spawned + 3
  }

  /** Giving up is certain exactly when no earlier readiness is on record. */
  lemma GivesUpExactly(s: Host)
    requires Orderly(s) && Ordinary(s)
    ensures GivesUp(s) <==> s.readyAt.None?
  {
    if s.readyAt.None? {
      forall es | AllUnready(es) ensures Run(s, es).budget.spawned <= s.budget.spawned + 3 { UnreadyGivesUp(s, es); }
    } else {
      var ages := Elapse(if s.readyAt.value > s.now then s.readyAt.value - s.now + 61.0 else 61.0);
      var aged := Step(s, ages);
      var rest := StaleMarkNeverGivesUp(aged, 4);
      OneMore(s, [], ages);
      RunJoins(s, [] + [ages], rest);
      assert AllUnready([] + [ages] + rest);
    }
  }
}
