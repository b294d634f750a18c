/**
 A pet's whole life: frames of the desktop's loop and what the pointer does to
 it. Monitors, windows and the pet's size may differ from frame to frame.
 */
module MotionLives {
  import opened Options
  import opened Habitats
  import opened Motion
  import opened MotionSafety

  datatype Action = Stay | Approach | Leap | GoHome

  /** The monitors, the windows and the size a frame or a command finds. */
  datatype Setting = Setting(areas: seq<Area>, windows: seq<Rect>, size: real)

  datatype Event =
    | Frame(setting: Setting, dt: real, mood: Mood, summoned: bool, action: Action, blocked: bool)
    | Grab
    | Drag(to: Point)
    | Drop(to: Point)
    | TogglePause
    | SendHome(setting: Setting)
    | Hide

  function HabitatOf(s: Setting): Habitat { NewHabitat(s.areas, s.windows) }

  function Acted(b: Pet, h: Habitat, size: real, action: Action, hypot: (real, real) -> real): (b': Pet)
    ensures Steady(b) ==> Steady(b')
  {
    match action
    case Stay => b
    case Approach => Approached(b, h, size, hypot)
    case Leap =>
      var tried := Approached(b, h, size, hypot);
      if tried.hopping then tried else HoppedInPlace(tried, h, size)
    case GoHome => Homed(b, h, size)
  }

  function Prepared(b: Pet, e: Event, h: Habitat, hypot: (real, real) -> real): (b': Pet)
    requires e.Frame?
    ensures Steady(b) ==> Steady(b')
  {
    var size := e.setting.size;
    var summoned := if e.summoned then Homed(b, h, size) else b;
    var acted := if e.blocked then summoned else Acted(summoned, h, size, e.action, hypot);
    if e.blocked && acted.hopping then DragStopped(acted) else acted
  }

  function Step(b: Pet, e: Event, platform: Platform): Option<Pet> {
    match e
    case Frame(setting, dt, mood, _, _, _) =>
      if b.hidden then Some(b)
      else
        var h := HabitatOf(setting);
        var ready := Prepared(b, e, h, platform.hypot);
        if Timed(ready) then Some(Ticked(ready, h, dt, setting.size, mood, platform)) else None
    case Grab => Some(DragStopped(b).(dragging := true))
    case Drag(to) => Some(b.(at := Some(to), dragging := true))
    case Drop(to) => Some(b.(at := Some(to), dragging := false))
    case TogglePause => Some(b.(paused := !b.paused))
    case SendHome(setting) => Some(Homed(b, HabitatOf(setting), setting.size))
    case Hide => Some(b.(hidden := true))
  }

  function Run(b: Pet, es: seq<Event>, platform: Platform): Option<Pet> {
    if es == [] then Some(b)
    else
      var before := Run(b, es[..|es| - 1], platform);
      if before.None? then None else Step(before.value, es[|es| - 1], platform)
  }

  // ------------------------------------------------ on any monitors, of any size

  lemma StepSteady(b: Pet, e: Event, platform: Platform)
    requires Steady(b)
    ensures Step(b, e, platform).Some? && Steady(Step(b, e, platform).value)
  {
  }

  /** In every life, on any monitors and of any size, speed and hop stay well formed. */
  lemma {:induction false} RunSteady(seed: nat, es: seq<Event>, platform: Platform)
    ensures Run(NewPet(seed), es, platform).Some? && Steady(Run(NewPet(seed), es, platform).value)
  {
    if es != [] {
      RunSteady(seed, es[..|es| - 1], platform);
      StepSteady(Run(NewPet(seed), es[..|es| - 1], platform).value, es[|es| - 1], platform);
    }
  }

  // ----------------------------------------------------------- on one monitor

  /** One usable monitor, large enough for the pet. */
  predicate Roomy(s: Setting) { |Usable(s.areas)| == 1 && Ample(Usable(s.areas)[0].rect, s.size) }

  function MonitorOf(s: Setting): Rect
    requires Roomy(s)
  {
    Usable(s.areas)[0].rect
  }

  lemma PreparedNearly(b: Pet, e: Event, h: Habitat, hypot: (real, real) -> real, area: Rect)
    requires e.Frame? && OneMonitor(h, area) && Ample(area, e.setting.size) && Nearly(b, area, e.setting.size) && !b.hidden
    ensures Nearly(Prepared(b, e, h, hypot), area, e.setting.size)
    ensures var b' := Prepared(b, e, h, hypot); b'.dragging == b.dragging && b'.hidden == b.hidden
  {
    var size := e.setting.size;
    HomeIsInside(b, h, area, size);
    var summoned := if e.summoned then Homed(b, h, size) else b;
    HomeIsInside(summoned, h, area, size);
    ApproachIsContained(summoned, h, size, hypot, area);
    BounceIsContained(Approached(summoned, h, size, hypot), h, size, area);
  }

  lemma FrameEndsInside(b: Pet, frame: Event, platform: Platform)
    requires frame.Frame? && Roomy(frame.setting) && Arched(platform.arch) && !b.hidden
    requires Nearly(b, MonitorOf(frame.setting), frame.setting.size)
    ensures var b' := Step(b, frame, platform);
            && b'.Some? && Sound(b'.value, MonitorOf(frame.setting), frame.setting.size)
            && (!b.dragging ==> MotionSafety.Inside(b'.value, MonitorOf(frame.setting), frame.setting.size))
  {
    var h, area, size := HabitatOf(frame.setting), MonitorOf(frame.setting), frame.setting.size;
    MonitorHabitat(frame.setting.areas, frame.setting.windows);
    PreparedNearly(b, frame, h, platform.hypot, area);
    TickEndsInside(Prepared(b, frame, h, platform.hypot), h, frame.dt, size, frame.mood, platform, area);
  }

  // -------------------------------------------- a frame that finds a hop under way

  /** The frame follows the pet's hop: nothing drops it, and the pet is where it may go on. */
  predicate Follows(b: Pet, frame: Event)
    requires frame.Frame? && Roomy(frame.setting)
  {
    && b.hop.Some? && MotionSafety.Inside(b, MonitorOf(frame.setting), frame.setting.size)
    && !frame.summoned && !frame.blocked && frame.action != GoHome && !b.paused && !frame.mood.reduced
    && HoldsTarget(HabitatOf(frame.setting).surfaces, b.hop.value, frame.setting.size)
  }

  /** The point a hop is drawn at when its age is this. */
  function PointAt(hop: Hop, age: real, arch: real -> real): Point
    requires hop.duration > 0.0
  {
    var older := hop.(age := age);
    OnArc(older, Ease(Progress(older)), arch(Progress(older)))
  }

  /** Any hop the frame follows is one that this monitor and size contain to its end. */
  predicate Carries(b: Pet, frame: Event)
    requires frame.Frame? && Roomy(frame.setting)
  {
    Follows(b, frame) ==> Contained(b.hop.value, MonitorOf(frame.setting), frame.setting.size)
  }

  /** A tick of a pet on its monitor whose hop still has its target follows the hop. */
  lemma HeldHopTicks(b: Pet, h: Habitat, dt: real, size: real, mood: Mood, platform: Platform)
    requires b.at.Some? && FitsAny(h.areas, b.at.value, size) && !Inert(b, h) && !b.paused && !mood.reduced
    requires b.hop.Some? && b.hop.value.duration > 0.0 && HoldsTarget(h.surfaces, b.hop.value, size)
    ensures var step := Clamp(dt, 0.0, 0.05);
            Ticked(b, h, dt, size, mood, platform) == Hopped(b.(moving := false, age := b.age + step), step, platform.arch)
  {
  }

  lemma HoppedPoint(b: Pet, dt: real, arch: real -> real)
    requires b.hop.Some? && b.hop.value.duration > 0.0
    ensures Hopped(b, dt, arch).at == Some(PointAt(b.hop.value, b.hop.value.age + dt, arch))
  {
  }

  lemma SettledStays(b: Pet, h: Habitat, size: real, area: Rect)
    requires OneMonitor(h, area) && MotionSafety.Inside(b, area, size)
    ensures MotionSafety.Inside(Settled(b, h, size), area, size)
  {
    LandingIsNearest(h.surfaces, b.at.value, None, size);
  }

  lemma FitsOnly(b: Pet, h: Habitat, size: real, area: Rect)
    requires OneMonitor(h, area) && MotionSafety.Inside(b, area, size)
    ensures FitsAny(h.areas, b.at.value, size)
  {
    assert Fits(h.areas[0].rect, b.at.value, size);
  }

  /** A tick that does not follow the hop of a pet on its monitor leaves the pet there. */
  lemma UnfollowedTick(b: Pet, h: Habitat, dt: real, size: real, mood: Mood, platform: Platform, area: Rect)
    requires OneMonitor(h, area) && Ample(area, size) && MotionSafety.Inside(b, area, size) && Steady(b) && b.hop.Some?
    requires !b.dragging && !b.hidden && (b.paused || mood.reduced || !HoldsTarget(h.surfaces, b.hop.value, size))
    ensures MotionSafety.Inside(Ticked(b, h, dt, size, mood, platform), area, size)
  {
    var still := b.(moving := false);
    FitsOnly(still, h, size, area);
    if !b.paused {
      if mood.reduced {
        SettledStays(still, h, size, area);
      } else {
        LostHopTick(still, h, Clamp(dt, 0.0, 0.05), size, mood, platform, area);
      }
    }
  }

  lemma LostHopTick(b: Pet, h: Habitat, dt: real, size: real, mood: Mood, platform: Platform, area: Rect)
    requires OneMonitor(h, area) && Ample(area, size) && MotionSafety.Inside(b, area, size) && Steady(b) && b.hop.Some?
    requires !b.hidden && !HoldsTarget(h.surfaces, b.hop.value, size) && 0.0 <= dt
    ensures MotionSafety.Inside(Moved(b, h, dt, size, mood, platform), area, size)
  {
    var dropped := b.(age := b.age + dt, hop := None, hopping := false, velocity := 0.0);
    FreedIsInside(dropped, h, dt, size, mood, platform, area);
  }

  /** What the frame does before the tick to a pet whose hop it may follow. */
  lemma PreparedHop(b: Pet, e: Event, h: Habitat, hypot: (real, real) -> real)
    requires e.Frame? && Steady(b) && b.hop.Some?
    ensures !e.summoned && !e.blocked && e.action != GoHome ==> Prepared(b, e, h, hypot) == b
  {
  }

  /** A summons, a block or an errand home leaves no hop but one that fits. */
  lemma PreparedSound(b: Pet, e: Event, h: Habitat, hypot: (real, real) -> real, area: Rect)
    requires e.Frame? && OneMonitor(h, area) && Ample(area, e.setting.size) && Steady(b) && !b.hidden && !b.dragging
    requires e.summoned || e.blocked || e.action == GoHome
    ensures Nearly(Prepared(b, e, h, hypot), area, e.setting.size)
  {
    var size := e.setting.size;
    HomeIsInside(b, h, area, size);
    if e.summoned {
      var home := Homed(b, h, size);
      HomeIsInside(home, h, area, size);
      ApproachIsContained(home, h, size, hypot, area);
      BounceIsContained(Approached(home, h, size, hypot), h, size, area);
    }
  }

  /**
   A frame that finds a pet free and visible on one monitor, whatever came before,
   ends there exactly unless it follows a hop to a point that does not fit.
   */
  lemma FrameEndsInsideExactly(b: Pet, frame: Event, platform: Platform)
    requires frame.Frame? && Roomy(frame.setting) && Arched(platform.arch) && Steady(b) && !b.dragging && !b.hidden
    ensures var area, size, b' := MonitorOf(frame.setting), frame.setting.size, Step(b, frame, platform);
            && b'.Some?
            && (MotionSafety.Inside(b'.value, area, size) <==>
                 (Follows(b, frame) ==>
                    Fits(area, PointAt(b.hop.value, b.hop.value.age + Clamp(frame.dt, 0.0, 0.05), platform.arch), size)))
  {
    var h, area, size := HabitatOf(frame.setting), MonitorOf(frame.setting), frame.setting.size;
    MonitorHabitat(frame.setting.areas, frame.setting.windows);
    if b.hop.None? || !MotionSafety.Inside(b, area, size) {
      FrameEndsInside(b, frame, platform);
    } else if frame.summoned || frame.blocked || frame.action == GoHome {
      PreparedSound(b, frame, h, platform.hypot, area);
      PreparedFlags(b, frame, h, platform.hypot);
      TickEndsInside(Prepared(b, frame, h, platform.hypot), h, frame.dt, size, frame.mood, platform, area);
    } else {
      PreparedHop(b, frame, h, platform.hypot);
      if Follows(b, frame) { FollowedTick(b, h, frame.dt, size, frame.mood, platform, area); }
      else { UnfollowedTick(b, h, frame.dt, size, frame.mood, platform, area); }
    }
  }

  lemma PreparedFlags(b: Pet, e: Event, h: Habitat, hypot: (real, real) -> real)
    requires e.Frame?
    ensures var b' := Prepared(b, e, h, hypot); b'.dragging == b.dragging && b'.hidden == b.hidden
  {
  }

  lemma FollowedTick(b: Pet, h: Habitat, dt: real, size: real, mood: Mood, platform: Platform, area: Rect)
    requires OneMonitor(h, area) && MotionSafety.Inside(b, area, size) && Steady(b) && b.hop.Some?
    requires !b.dragging && !b.hidden && !b.paused && !mood.reduced && HoldsTarget(h.surfaces, b.hop.value, size)
    ensures Ticked(b, h, dt, size, mood, platform).at
         == Some(PointAt(b.hop.value, b.hop.value.age + Clamp(dt, 0.0, 0.05), platform.arch))
  {
    var step := Clamp(dt, 0.0, 0.05);
    FitsOnly(b, h, size, area);
    HeldHopTicks(b, h, dt, size, mood, platform);
    HoppedPoint(b.(moving := false, age := b.age + step), step, platform.arch);
  }

  /** A contained hop is drawn inside at every later age. */
  lemma ContainedPoint(hop: Hop, age: real, arch: real -> real, area: Rect, size: real)
    requires Contained(hop, area, size) && age >= hop.age && Arched(arch)
    ensures Fits(area, PointAt(hop, age, arch), size)
  {
    var older := hop.(age := age);
    ProgressGrows(hop, age);
    EaseWithinOne(Progress(older));
    EaseGrows(Progress(hop), Progress(older));
    assert 0.0 <= arch(Progress(older)) <= 1.0;
    SameArc(hop, older, Ease(Progress(older)), arch(Progress(older)));
    ArcIsInside(hop, Ease(Progress(older)), arch(Progress(older)), area, size);
  }

  lemma CarriedFrameEndsInside(b: Pet, frame: Event, platform: Platform)
    requires frame.Frame? && Roomy(frame.setting) && Arched(platform.arch) && Steady(b) && !b.dragging && !b.hidden && Carries(b, frame)
    ensures var b' := Step(b, frame, platform);
            b'.Some? && MotionSafety.Inside(b'.value, MonitorOf(frame.setting), frame.setting.size)
  {
    FrameEndsInsideExactly(b, frame, platform);
    if Follows(b, frame) {
      ContainedPoint(b.hop.value, b.hop.value.age + Clamp(frame.dt, 0.0, 0.05), platform.arch, MonitorOf(frame.setting), frame.setting.size);
    }
  }

  /**
   In every life of a pet, whatever monitors and sizes it has known, a frame that
   finds it free and visible on one monitor leaves it there, if what is left of
   any hop it follows is on that monitor at that size.
   */
  lemma EveryFrameEndsInside(seed: nat, es: seq<Event>, frame: Event, platform: Platform)
    requires frame.Frame? && Roomy(frame.setting) && Arched(platform.arch)
    requires var b := Run(NewPet(seed), es, platform);
             b.Some? ==> !b.value.dragging && !b.value.hidden && Carries(b.value, frame)
    ensures var b' := Run(NewPet(seed), es + [frame], platform);
            b'.Some? && MotionSafety.Inside(b'.value, MonitorOf(frame.setting), frame.setting.size)
  {
    RunSteady(seed, es, platform);
    assert (es + [frame])[..|es|] == es;
    CarriedFrameEndsInside(Run(NewPet(seed), es, platform).value, frame, platform);
  }

  // ------------------------------------------------- while nothing is resized

  /** The event finds the monitors and the size it always found; windows may differ. */
  predicate Usual(e: Event, areas: seq<Area>, size: real) {
    e.Frame? || e.SendHome? ==> e.setting.areas == areas && e.setting.size == size
  }

  lemma UsualStepKeepsSound(b: Pet, e: Event, s: Setting, platform: Platform)
    requires Roomy(s) && Usual(e, s.areas, s.size) && Arched(platform.arch) && Sound(b, MonitorOf(s), s.size)
    ensures Step(b, e, platform).Some? && Sound(Step(b, e, platform).value, MonitorOf(s), s.size)
  {
    if e.Frame? && !b.hidden { FrameEndsInside(b, e, platform); }
    if e.SendHome? {
      MonitorHabitat(e.setting.areas, e.setting.windows);
      HomeIsInside(b, HabitatOf(e.setting), MonitorOf(s), s.size);
    }
  }

  /** A life on one monitor at one size only ever knows hops contained there. */
  lemma {:induction false} UsualLifeIsSound(seed: nat, es: seq<Event>, s: Setting, platform: Platform)
    requires Roomy(s) && Arched(platform.arch) && forall e :: e in es ==> Usual(e, s.areas, s.size)
    ensures Run(NewPet(seed), es, platform).Some? && Sound(Run(NewPet(seed), es, platform).value, MonitorOf(s), s.size)
  {
    if es != [] {
      assert es[|es| - 1] in es && forall e :: e in es[..|es| - 1] ==> e in es;
      UsualLifeIsSound(seed, es[..|es| - 1], s, platform);
      UsualStepKeepsSound(Run(NewPet(seed), es[..|es| - 1], platform).value, es[|es| - 1], s, platform);
    }
  }

  /** So every frame of such a life ends inside, without any condition on hops. */
  lemma UsualFrameEndsInside(seed: nat, es: seq<Event>, frame: Event, platform: Platform)
    requires frame.Frame? && Roomy(frame.setting) && Arched(platform.arch)
    requires forall e :: e in es ==> Usual(e, frame.setting.areas, frame.setting.size)
    ensures var b, b' := Run(NewPet(seed), es, platform), Run(NewPet(seed), es + [frame], platform);
            b.Some? && (!b.value.dragging && !b.value.hidden ==>
              b'.Some? && MotionSafety.Inside(b'.value, MonitorOf(frame.setting), frame.setting.size))
  {
    UsualLifeIsSound(seed, es, frame.setting, platform);
    assert (es + [frame])[..|es|] == es;
    if !Run(NewPet(seed), es, platform).value.hidden {
      FrameEndsInside(Run(NewPet(seed), es, platform).value, frame, platform);
    }
  }

  // --------------------------------------------------- a pet resized in the air

  const DESK := [Area(Rect(0.0, 0.0, 1000.0, 700.0), 1.0)]
  const LEDGE := [Rect(0.0, 200.0, 1000.0, 100.0)]
  const CALM := Mood(true, false, false)

  function DeskAt(size: real): Setting { Setting(DESK, LEDGE, size) }

  lemma DeskIsUsable()
    ensures Usable(DESK) == DESK
  {
    assert DESK[..0] == [] && Usable(DESK[..0]) == [];
  }

  lemma LedgeSurface()
    ensures Surface(0.0, 1000.0, 200.0) in NewHabitat(DESK, LEDGE).surfaces
  {
    DeskIsUsable();
    var edge, area := Span(0.0, 1000.0), DESK[0].rect;
    assert LEDGE[..0] == [] && Covers(LEDGE[0], []) == [];
    assert Clipped(LEDGE[0], area) == edge;
    assert ExposedEdges.Maximal(edge, edge, []);
    assert ExposedEdges.Stands(Surface(0.0, 1000.0, 200.0), LEDGE, 0, area);
    ExposedEdges.SurfacesAreExact(DESK, LEDGE, Surface(0.0, 1000.0, 200.0));
  }

  lemma LedgeOrFloor(s: Surface)
    requires s in NewHabitat(DESK, LEDGE).surfaces
    ensures s.y == 200.0 || s.y == 700.0
  {
    DeskIsUsable();
    ExposedEdges.SurfacesAreExact(DESK, LEDGE, s);
  }

  lemma NowhereToGo(hypot: (real, real) -> real)
    ensures var h := NewHabitat(DESK, LEDGE); Closest(h.surfaces, h.areas, Point(500.0, 200.0), 48.0, hypot).None?
  {
    var h, p := NewHabitat(DESK, LEDGE), Point(500.0, 200.0);
    ClosestIsClosest(h.surfaces, h.areas, p, 48.0, hypot);
    forall s | s in h.surfaces ensures TargetOn(s, h.areas, p, 48.0, hypot).None? { LedgeOrFloor(s); }
  }

  /** The small pet on the ledge leaps on the spot, for want of anywhere else to go. */
  lemma SmallPetLeaps(b: Pet, hypot: (real, real) -> real)
    requires b.at == Some(Point(500.0, 200.0)) && b.hop.None? && !b.dragging && !b.paused && !b.hopping
    ensures Acted(b, NewHabitat(DESK, LEDGE), 48.0, Leap, hypot)
         == Hops(b, Hop(Point(500.0, 200.0), Point(500.0, 200.0), 0.0, 0.65, 28.8))
  {
    var h, p := NewHabitat(DESK, LEDGE), Point(500.0, 200.0);
    DeskIsUsable();
    NowhereToGo(hypot);
    assert Around(h.areas, p, 48.0) == Some(DESK[0].rect);
  }

  lemma LedgeHolds(b: Pet, size: real)
    requires b.hop.Some? && b.hop.value.to == Point(500.0, 200.0) && 0.0 < size <= 192.0
    requires b.at.Some? && b.at.value.x == 500.0 && size <= b.at.value.y <= 200.0
    ensures var h := NewHabitat(DESK, LEDGE);
            FitsAny(h.areas, b.at.value, size) && h.areas != [] && HoldsTarget(h.surfaces, b.hop.value, size)
  {
    var h := NewHabitat(DESK, LEDGE);
    DeskIsUsable();
    LedgeSurface();
    assert Fits(h.areas[0].rect, b.at.value, size);
    var k :| 0 <= k < |h.surfaces| && h.surfaces[k] == Surface(0.0, 1000.0, 200.0);
    assert Supports(h.surfaces[k], b.hop.value.to, size);
  }

  /** One frame of a leap on the spot that has begun and is not over. */
  lemma LeapRises(b: Pet, p: Point, arch: real -> real)
    requires b.hop.Some? && b.hop.value.from == p && b.hop.value.to == p
    requires b.hop.value.duration == 0.65 && b.hop.value.lift == 28.8 && 0.0 <= b.hop.value.age <= 0.5
    ensures var b' := Hopped(b, 0.05, arch);
            && b'.at == Some(Point(p.x, p.y - arch((b.hop.value.age + 0.05) / 0.65) * 28.8))
            && b'.hop == Some(b.hop.value.(age := b.hop.value.age + 0.05))
  {
    var hop := b.hop.value.(age := b.hop.value.age + 0.05);
    assert hop.age / 0.65 < 1.0 && Progress(hop) == hop.age / 0.65;
    LevelArc(hop, Ease(Progress(hop)), arch(Progress(hop)));
  }

  lemma LevelArc(hop: Hop, e: real, dip: real)
    requires hop.from == hop.to
    ensures OnArc(hop, e, dip) == Point(hop.from.x, hop.from.y - dip * hop.lift)
  {
  }

  lemma LedgeHopFollowed(b: Pet, h: Habitat, size: real, platform: Platform)
    requires b.hop.Some? && b.hop.value.to == Point(500.0, 200.0) && b.hop.value.duration == 0.65 && 0.0 < size <= 192.0
    requires b.at.Some? && b.at.value.x == 500.0 && size <= b.at.value.y <= 200.0
    requires !b.dragging && !b.hidden && !b.paused && h == NewHabitat(DESK, LEDGE)
    ensures Ticked(b, h, 0.05, size, CALM, platform) == Hopped(b.(moving := false, age := b.age + 0.05), 0.05, platform.arch)
  {
    LedgeHolds(b, size);
    HeldHopTicks(b, h, 0.05, size, CALM, platform);
  }

  /** A tick of that leap on the ledge, whatever the pet's size. */
  lemma LedgeHopTicks(b: Pet, size: real, platform: Platform)
    requires b.hop.Some? && !b.dragging && !b.hidden && !b.paused && 0.0 < size <= 192.0
    requires b.hop.value.from == Point(500.0, 200.0) && b.hop.value.to == Point(500.0, 200.0)
    requires b.hop.value.duration == 0.65 && b.hop.value.lift == 28.8 && 0.0 <= b.hop.value.age <= 0.5
    requires b.at.Some? && b.at.value.x == 500.0 && size <= b.at.value.y <= 200.0
    ensures var t, b' := (b.hop.value.age + 0.05) / 0.65, Ticked(b, NewHabitat(DESK, LEDGE), 0.05, size, CALM, platform);
            && b'.at == Some(Point(500.0, 200.0 - platform.arch(t) * 28.8))
            && b'.hop == Some(b.hop.value.(age := b.hop.value.age + 0.05))
            && b'.dragging == b.dragging && b'.hidden == b.hidden && b'.paused == b.paused
  {
    LedgeHopFollowed(b, NewHabitat(DESK, LEDGE), size, platform);
    LeapRises(b.(moving := false, age := b.age + 0.05), Point(500.0, 200.0), platform.arch);
  }

  /**
   A pet that grows in the middle of a hop leaves its monitor: the hop was
   contained at the size it began with, and is not at the new one.
   */
  lemma GrowingPetLeaves(seed: nat, platform: Platform)
    requires platform.arch(0.05 / 0.65) <= 0.25 && 0.0 <= platform.arch(0.05 / 0.65) && platform.arch(0.1 / 0.65) >= 0.4
    ensures var small := Frame(DeskAt(48.0), 0.05, CALM, false, Leap, false);
            var large := Frame(DeskAt(192.0), 0.05, CALM, false, Stay, false);
            var b := Step(NewPet(seed), Drop(Point(500.0, 200.0)), platform).value;
            var b1 := Step(b, small, platform);
            b1.Some? && MotionSafety.Inside(b1.value, DESK[0].rect, 192.0)
            && var b2 := Step(b1.value, large, platform);
               b2.Some? && !MotionSafety.Inside(b2.value, DESK[0].rect, 192.0)
  {
    var b := NewPet(seed).(at := Some(Point(500.0, 200.0)));
    SmallPetLeaps(b, platform.hypot);
    var leaping := Hops(b, Hop(Point(500.0, 200.0), Point(500.0, 200.0), 0.0, 0.65, 28.8));
    LedgeHopTicks(leaping, 48.0, platform);
    var b1 := Ticked(leaping, NewHabitat(DESK, LEDGE), 0.05, 48.0, CALM, platform);
    LedgeHopTicks(b1, 192.0, platform);
  }
}
