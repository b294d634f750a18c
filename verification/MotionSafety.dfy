/**
 What every frame of a pet's life keeps: it ends on its monitor, hops stay
 inside it and end on their target, and falls are short.
 */
module MotionSafety {
  import opened Options
  import opened Habitats
  import opened ExposedEdges
  import opened Motion

  ghost predicate Arched(arch: real -> real) {
    && (forall t :: 0.0 <= t <= 1.0 ==> 0.0 <= arch(t) <= 1.0)
    && arch(1.0) == 0.0
  }

  predicate Ample(area: Rect, size: real) {
    size > 0.0 && area.width >= size && area.height >= size
  }

  ghost predicate OneMonitor(h: Habitat, area: Rect) {
    && |h.areas| == 1 && h.areas[0].rect == area
    && (forall s :: s in h.surfaces ==> OnMonitor(s, area))
    && Surface(area.x, area.Right(), area.Bottom()) in h.surfaces
  }

  lemma MonitorHabitat(areas: seq<Area>, windows: seq<Rect>)
    requires |Usable(areas)| == 1
    ensures OneMonitor(NewHabitat(areas, windows), Usable(areas)[0].rect)
  {
    var area, h := Usable(areas)[0].rect, NewHabitat(areas, windows);
    forall s | s in h.surfaces ensures OnMonitor(s, area) {
      SurfacesOnMonitors(areas, windows, s);
    }
    assert Floors(Usable(areas))[0] == Surface(area.x, area.Right(), area.Bottom());
  }

  // --------------------------------------------------------------- selection

  /** The support is the first surface that supports, if there is one. */
  lemma {:induction false} SupportFound(surfaces: seq<Surface>, p: Point, size: real)
    ensures var found := Support(surfaces, p, size);
            if found.Some? then found.value in surfaces && Supports(found.value, p, size)
            else forall s :: s in surfaces ==> !Supports(s, p, size)
  {
    if surfaces != [] {
      SupportFound(surfaces[1..], p, size);
      assert surfaces == [surfaces[0]] + surfaces[1..];
    }
  }

  /** A landing is the nearest surface in reach. */
  lemma {:induction false} LandingIsNearest(surfaces: seq<Surface>, p: Point, limit: Option<real>, size: real)
    ensures var found := Landing(surfaces, p, limit, size);
            if found.Some? then
              found.value in surfaces && Reaches(found.value, p, limit, size)
              && forall s :: s in surfaces && Reaches(s, p, limit, size) ==> found.value.y <= s.y
            else forall s :: s in surfaces ==> !Reaches(s, p, limit, size)
  {
    if surfaces != [] {
      LandingIsNearest(surfaces[1..], p, limit, size);
      assert surfaces == [surfaces[0]] + surfaces[1..];
    }
  }

  /** A hop goes to a closest target among all the surfaces. */
  lemma {:induction false} ClosestIsClosest(surfaces: seq<Surface>, areas: seq<Area>, p: Point, size: real, hypot: (real, real) -> real)
    ensures var found := Closest(surfaces, areas, p, size, hypot);
            if found.Some? then
              && (exists s :: s in surfaces && TargetOn(s, areas, p, size, hypot) == found)
              && (forall s :: s in surfaces && TargetOn(s, areas, p, size, hypot).Some? ==>
                    found.value.distance <= TargetOn(s, areas, p, size, hypot).value.distance)
            else forall s :: s in surfaces ==> TargetOn(s, areas, p, size, hypot).None?
  {
    if surfaces != [] {
      ClosestIsClosest(surfaces[1..], areas, p, size, hypot);
      assert surfaces == [surfaces[0]] + surfaces[1..];
    }
  }

  // --------------------------------------------------------------- invariant

  /** Where the ground track of a hop has got to. */
  function Reached(hop: Hop): Point
    requires hop.duration > 0.0
  {
    OnArc(hop, Ease(Progress(hop)), 0.0)
  }

  /** What is left of a hop is on the monitor: where it has got to, its target, and its lift over both. */
  predicate Contained(hop: Hop, area: Rect, size: real) {
    && hop.age >= 0.0 && hop.duration > 0.0
    && Fits(area, Reached(hop), size) && Fits(area, hop.to, size)
    && 0.0 <= hop.lift <= Min(Reached(hop).y, hop.to.y) - area.y - size
  }

  /** Every point still ahead of a hop, however it arches, is on the monitor. */
  ghost predicate Clear(hop: Hop, area: Rect, size: real) {
    hop.age >= 0.0 && hop.duration > 0.0 && hop.lift >= 0.0 && ClearFrom(hop, Ease(Progress(hop)), area, size)
  }

  ghost predicate ClearFrom(hop: Hop, e0: real, area: Rect, size: real) {
    forall e, dip :: e0 <= e <= 1.0 && 0.0 <= dip <= 1.0 ==> Fits(area, OnArc(hop, e, dip), size)
  }

  ghost predicate Sound(b: Pet, area: Rect, size: real) {
    && b.velocity >= 0.0
    && b.hopping == b.hop.Some?
    && (b.falling ==> b.hop.None?)
    && (b.hop.Some? ==> Clear(b.hop.value, area, size))
  }

  predicate Inside(b: Pet, area: Rect, size: real) {
    b.at.Some? && Fits(area, b.at.value, size)
  }

  /** A hop begun off the monitor, which the next tick of this frame drops. */
  predicate Astray(b: Pet, area: Rect, size: real) {
    b.hop.Some? && b.hop.value.duration > 0.0 && b.at.Some? && !Fits(area, b.at.value, size) && !b.dragging && !b.hidden
  }

  ghost predicate Nearly(b: Pet, area: Rect, size: real) {
    Sound(b, area, size) || (Astray(b, area, size) && b.velocity >= 0.0)
  }

  lemma HomeIsInside(b: Pet, h: Habitat, area: Rect, size: real)
    requires OneMonitor(h, area) && Ample(area, size)
    ensures Sound(Homed(b, h, size), area, size) && Inside(Homed(b, h, size), area, size)
  {
    assert size * (b.seed as real + 1.0) >= size;
  }

  lemma RecoveredIsInside(b: Pet, h: Habitat, area: Rect, size: real)
    requires OneMonitor(h, area) && Ample(area, size) && Nearly(b, area, size)
    ensures Sound(Recovered(b, h, size), area, size) && Inside(Recovered(b, h, size), area, size)
  {
    HomeIsInside(b, h, area, size);
    if b.at.Some? && Fits(h.areas[0].rect, b.at.value, size) {
      assert FitsAny(h.areas, b.at.value, size);
    }
  }

  // ------------------------------------------------------------------ hopping

  lemma Scaled(a: real, b: real, c: real)
    requires a <= b && 0.0 <= c
    ensures a * c <= b * c
  {
  }

  lemma EaseWithinOne(t: real)
    requires 0.0 <= t <= 1.0
    ensures 0.0 <= Ease(t) <= 1.0
  {
    Scaled(0.0, t, t);
    Scaled(0.0, 3.0 - 2.0 * t, t * t);
    var rest := 1.0 - t;
    Scaled(0.0, rest, rest);
    Scaled(0.0, 1.0 + 2.0 * t, rest * rest);
    assert rest * rest == 1.0 - 2.0 * t + t * t;
    assert (1.0 + 2.0 * t) * (rest * rest) == 1.0 - t * t * (3.0 - 2.0 * t);
  }

  lemma Between(a: real, b: real, e: real)
    requires 0.0 <= e <= 1.0
    ensures Min(a, b) <= a + (b - a) * e <= Max(a, b)
  {
    if a <= b {
      Scaled(0.0, b - a, e);
      Scaled(e, 1.0, b - a);
    } else {
      Scaled(b - a, 0.0, e);
      Scaled(e, 1.0, a - b);
      assert (b - a) * e == -((a - b) * e);
    }
  }

  lemma Lowered(dip: real, lift: real)
    requires 0.0 <= dip <= 1.0 && 0.0 <= lift
    ensures 0.0 <= dip * lift <= lift
  {
    Scaled(0.0, dip, lift);
    Scaled(0.0, 1.0 - dip, lift);
    assert (1.0 - dip) * lift == lift - dip * lift;
  }

  lemma Lifted(low: real, high: real, a: real, b: real, e: real, dip: real, lift: real)
    requires 0.0 <= e <= 1.0 && 0.0 <= dip <= 1.0 && 0.0 <= lift && low + lift <= Min(a, b) && Max(a, b) <= high
    ensures low <= a + (b - a) * e - dip * lift <= high
  {
    Between(a, b, e);
    Lowered(dip, lift);
  }

  /** From part `e0` of the way on, a stretch stays between where it was then and its end. */
  lemma Onward(a: real, b: real, e0: real, e: real)
    requires e0 <= e <= 1.0
    ensures var from := a + (b - a) * e0; Min(from, b) <= a + (b - a) * e <= Max(from, b)
  {
    if a <= b {
      Scaled(e0, e, b - a);
      Scaled(e, 1.0, b - a);
    } else {
      Scaled(e0, e, a - b);
      Scaled(e, 1.0, a - b);
      assert (b - a) * e == -((a - b) * e) && (b - a) * e0 == -((a - b) * e0);
    }
  }

  lemma Under(low: real, high: real, y: real, from: real, to: real, dip: real, lift: real)
    requires Min(from, to) <= y <= Max(from, to) && 0.0 <= dip <= 1.0 && 0.0 <= lift
    requires low + lift <= Min(from, to) && Max(from, to) <= high
    ensures low <= y - dip * lift <= high
  {
    Lowered(dip, lift);
  }

  lemma ArcParts(hop: Hop, e: real, dip: real)
    ensures OnArc(hop, e, dip).x == hop.from.x + (hop.to.x - hop.from.x) * e
    ensures OnArc(hop, e, 0.0).y == hop.from.y + (hop.to.y - hop.from.y) * e
    ensures OnArc(hop, e, dip).y == OnArc(hop, e, 0.0).y - dip * hop.lift
  {
  }

  lemma ArcAcross(hop: Hop, e0: real, e: real, dip: real, low: real, high: real)
    requires e0 <= e <= 1.0 && low <= Min(OnArc(hop, e0, 0.0).x, hop.to.x) && Max(OnArc(hop, e0, 0.0).x, hop.to.x) <= high
    ensures low <= OnArc(hop, e, dip).x <= high
  {
    ArcParts(hop, e0, 0.0);
    ArcParts(hop, e, dip);
    Onward(hop.from.x, hop.to.x, e0, e);
    Inherit(low, high, OnArc(hop, e, dip).x, OnArc(hop, e0, 0.0).x, hop.to.x);
  }

  lemma Inherit(low: real, high: real, x: real, from: real, to: real)
    requires Min(from, to) <= x <= Max(from, to) && low <= Min(from, to) && Max(from, to) <= high
    ensures low <= x <= high
  {
  }

  lemma ArcHeight(hop: Hop, e0: real, e: real, dip: real, low: real, high: real)
    requires e0 <= e <= 1.0 && 0.0 <= dip <= 1.0 && 0.0 <= hop.lift
    requires low + hop.lift <= Min(OnArc(hop, e0, 0.0).y, hop.to.y) && Max(OnArc(hop, e0, 0.0).y, hop.to.y) <= high
    ensures low <= OnArc(hop, e, dip).y <= high
  {
    ArcParts(hop, e0, dip);
    ArcParts(hop, e, dip);
    Onward(hop.from.y, hop.to.y, e0, e);
    Under(low, high, OnArc(hop, e, 0.0).y, OnArc(hop, e0, 0.0).y, hop.to.y, dip, hop.lift);
  }

  lemma ArcIsInside(hop: Hop, e: real, dip: real, area: Rect, size: real)
    requires Contained(hop, area, size) && Ease(Progress(hop)) <= e <= 1.0 && 0.0 <= dip <= 1.0
    ensures Fits(area, OnArc(hop, e, dip), size)
  {
    ArcAcross(hop, Ease(Progress(hop)), e, dip, area.x + size / 2.0, area.Right() - size / 2.0);
    ArcHeight(hop, Ease(Progress(hop)), e, dip, area.y + size, area.Bottom() + 1.0);
  }

  /**
   Every point still ahead of a hop, however it arches, is on a monitor exactly
   when where it has got to and its target are, and its lift over both is.
   */
  lemma ArcInsideExactly(hop: Hop, area: Rect, size: real)
    requires hop.age >= 0.0 && hop.duration > 0.0 && hop.lift >= 0.0
    ensures Clear(hop, area, size) <==> Contained(hop, area, size)
  {
    var e0 := Ease(Progress(hop));
    ProgressWithinOne(hop);
    EaseWithinOne(Progress(hop));
    if Contained(hop, area, size) {
      forall e, dip | e0 <= e <= 1.0 && 0.0 <= dip <= 1.0 ensures Fits(area, OnArc(hop, e, dip), size) {
        ArcIsInside(hop, e, dip, area, size);
      }
    }
    if Clear(hop, area, size) { ClearCorners(hop, area, size); }
  }

  lemma ClearCorners(hop: Hop, area: Rect, size: real)
    requires Clear(hop, area, size) && 0.0 <= Ease(Progress(hop)) <= 1.0
    ensures Contained(hop, area, size)
  {
    var e0 := Ease(Progress(hop));
    assert Fits(area, OnArc(hop, e0, 0.0), size) && Fits(area, OnArc(hop, e0, 1.0), size);
    assert Fits(area, OnArc(hop, 1.0, 0.0), size) && Fits(area, OnArc(hop, 1.0, 1.0), size);
    ArcEnds(hop);
    LiftedBy(hop, e0);
    LiftedBy(hop, 1.0);
  }

  lemma LiftedBy(hop: Hop, e: real)
    ensures OnArc(hop, e, 1.0).y == OnArc(hop, e, 0.0).y - hop.lift
  {
  }

  /** A hop that has just begun has got nowhere yet. */
  lemma FreshHop(hop: Hop, area: Rect, size: real)
    requires hop.age == 0.0 && hop.duration > 0.0 && Fits(area, hop.from, size) && Fits(area, hop.to, size)
    requires 0.0 <= hop.lift <= Min(hop.from.y, hop.to.y) - area.y - size
    ensures Clear(hop, area, size)
  {
    assert Progress(hop) == 0.0 && Ease(0.0) == 0.0;
    ArcBegins(hop);
    ArcInsideExactly(hop, area, size);
  }

  lemma ArcBegins(hop: Hop)
    ensures OnArc(hop, 0.0, 0.0) == hop.from
  {
  }

  lemma ProgressWithinOne(hop: Hop)
    requires hop.age >= 0.0 && hop.duration > 0.0
    ensures 0.0 <= Progress(hop) <= 1.0
    ensures Progress(hop) < 1.0 <==> hop.age < hop.duration
  {
    if hop.age < hop.duration { assert hop.age / hop.duration < 1.0; }
    else { assert hop.age / hop.duration >= 1.0; }
  }

  lemma SquareIsLess(t: real)
    requires 0.0 <= t <= 1.0
    ensures t * t <= t
  {
    Scaled(0.0, 1.0 - t, t);
    assert (1.0 - t) * t == t - t * t;
  }

  lemma SlopeRises(t: real, u: real, tt: real, tu: real, uu: real)
    requires 0.0 <= t <= u <= 1.0 && tt == t * t && tu == t * u && uu == u * u
    ensures 3.0 * (t + u) - 2.0 * (tt + tu + uu) >= 0.0
  {
    SquareIsLess(t);
    SquareIsLess(u);
    var gap := u - t;
    Scaled(0.0, gap, gap);
    assert gap * gap == u * gap - t * gap;
    assert u * gap == uu - tu && t * gap == tu - tt;
  }

  lemma EaseGrows(t: real, u: real)
    requires 0.0 <= t <= u <= 1.0
    ensures Ease(t) <= Ease(u)
  {
    var slope := 3.0 * (t + u) - 2.0 * (t * t + t * u + u * u);
    SlopeRises(t, u, t * t, t * u, u * u);
    Scaled(0.0, slope, u - t);
    assert slope * (u - t) == Ease(u) - Ease(t);
  }

  lemma ProgressGrows(hop: Hop, age: real)
    requires 0.0 <= hop.age <= age && hop.duration > 0.0
    ensures 0.0 <= Progress(hop) <= Progress(hop.(age := age)) <= 1.0
  {
    ProgressWithinOne(hop);
    assert hop.age / hop.duration <= age / hop.duration;
  }

  /** What is ahead of an older hop is part of what was ahead before. */
  lemma ClearLater(hop: Hop, age: real, area: Rect, size: real)
    requires Clear(hop, area, size) && age >= hop.age
    ensures Clear(hop.(age := age), area, size)
  {
    var older := hop.(age := age);
    ProgressGrows(hop, age);
    EaseGrows(Progress(hop), Progress(older));
    ClearOnward(hop, older, Ease(Progress(hop)), Ease(Progress(older)), area, size);
  }

  lemma ClearOnward(hop: Hop, older: Hop, e0: real, e1: real, area: Rect, size: real)
    requires ClearFrom(hop, e0, area, size) && e0 <= e1 && older == hop.(age := older.age)
    ensures ClearFrom(older, e1, area, size)
  {
    forall e, dip | e1 <= e <= 1.0 && 0.0 <= dip <= 1.0 ensures Fits(area, OnArc(older, e, dip), size) {
      SameArc(hop, older, e, dip);
      assert Fits(area, OnArc(hop, e, dip), size);
    }
  }

  lemma SameArc(hop: Hop, older: Hop, e: real, dip: real)
    requires older == hop.(age := older.age)
    ensures OnArc(older, e, dip) == OnArc(hop, e, dip)
  {
  }

  lemma HopStaysInside(b: Pet, dt: real, arch: real -> real, area: Rect, size: real)
    requires Sound(b, area, size) && b.hop.Some? && Arched(arch) && dt >= 0.0
    ensures Sound(Hopped(b, dt, arch), area, size) && Inside(Hopped(b, dt, arch), area, size)
  {
    var hop := b.hop.value.(age := b.hop.value.age + dt);
    ProgressWithinOne(hop);
    EaseWithinOne(Progress(hop));
    ClearLater(b.hop.value, hop.age, area, size);
    assert 0.0 <= arch(Progress(hop)) <= 1.0;
    assert Fits(area, OnArc(hop, Ease(Progress(hop)), arch(Progress(hop))), size);
  }

  lemma ArcEnds(hop: Hop)
    ensures OnArc(hop, 1.0, 0.0) == hop.to
  {
  }

  /** A hop that is over has put the pet exactly on its target. */
  lemma HopEndsOnTarget(b: Pet, dt: real, arch: real -> real)
    requires b.hop.Some? && b.hop.value.duration > 0.0 && b.hop.value.age >= 0.0 && dt >= 0.0 && Arched(arch)
    ensures var b' := Hopped(b, dt, arch);
            (b'.hop.None? <==> b.hop.value.age + dt >= b.hop.value.duration)
            && (b'.hop.None? ==> b'.at == Some(b.hop.value.to) && b'.velocity == 0.0 && !b'.hopping)
  {
    var hop := b.hop.value.(age := b.hop.value.age + dt);
    ProgressWithinOne(hop);
    ArcEnds(hop);
    assert Ease(1.0) == 1.0;
  }

  lemma {:induction false} CommonIsMonitor(areas: seq<Area>, x: real, to: Point, size: real)
    requires Common(areas, x, to, size).Some?
    ensures exists k :: 0 <= k < |areas| && Common(areas, x, to, size).value == areas[k].rect
    ensures var r := Common(areas, x, to, size).value;
            r.x + size / 2.0 <= to.x <= r.Right() - size / 2.0 && r.y + size <= to.y <= r.Bottom()
  {
    if !(var r := areas[0].rect;
         && r.x + size / 2.0 <= x <= r.Right() - size / 2.0
         && r.x + size / 2.0 <= to.x <= r.Right() - size / 2.0
         && r.y + size <= to.y <= r.Bottom())
    {
      CommonIsMonitor(areas[1..], x, to, size);
      var k :| 0 <= k < |areas[1..]| && Common(areas[1..], x, to, size).value == areas[1..][k].rect;
      assert areas[1..][k] == areas[k + 1];
    }
  }

  lemma TargetIsInside(h: Habitat, p: Point, size: real, hypot: (real, real) -> real, area: Rect)
    requires OneMonitor(h, area) && Closest(h.surfaces, h.areas, p, size, hypot).Some?
    ensures var t := Closest(h.surfaces, h.areas, p, size, hypot).value;
            t.area == area && area.x + size / 2.0 <= t.to.x <= area.Right() - size / 2.0 && area.y + size <= t.to.y <= area.Bottom()
  {
    ClosestIsClosest(h.surfaces, h.areas, p, size, hypot);
    var t := Closest(h.surfaces, h.areas, p, size, hypot);
    var s :| s in h.surfaces && TargetOn(s, h.areas, p, size, hypot) == t;
    CommonIsMonitor(h.areas, p.x, t.value.to, size);
  }

  /** Hopping to a surface leaves a contained hop, unless the pet was off the monitor. */
  lemma ApproachIsContained(b: Pet, h: Habitat, size: real, hypot: (real, real) -> real, area: Rect)
    requires OneMonitor(h, area) && Ample(area, size) && Nearly(b, area, size) && !b.hidden
    ensures var b' := Approached(b, h, size, hypot);
            Nearly(b', area, size) && b'.at == b.at && (Inside(b, area, size) && Sound(b, area, size) ==> Sound(b', area, size))
  {
    if MayHop(b) && Closest(h.surfaces, h.areas, b.at.value, size, hypot).Some? {
      TargetIsInside(h, b.at.value, size, hypot, area);
      if Inside(b, area, size) { FreshHop(Approached(b, h, size, hypot).hop.value, area, size); }
    }
  }

  lemma {:induction false} AroundIsMonitor(areas: seq<Area>, p: Point, size: real)
    requires Around(areas, p, size).Some?
    ensures exists k :: 0 <= k < |areas| && Around(areas, p, size).value == areas[k].rect
  {
    if !(var r := areas[0].rect; r.x <= p.x <= r.Right() && r.y + size <= p.y <= r.Bottom()) {
      AroundIsMonitor(areas[1..], p, size);
      var k :| 0 <= k < |areas[1..]| && Around(areas[1..], p, size).value == areas[1..][k].rect;
      assert areas[1..][k] == areas[k + 1];
    }
  }

  lemma BounceIsContained(b: Pet, h: Habitat, size: real, area: Rect)
    requires OneMonitor(h, area) && Ample(area, size) && Nearly(b, area, size) && !b.hidden
    ensures var b' := HoppedInPlace(b, h, size);
            Nearly(b', area, size) && b'.at == b.at && (Inside(b, area, size) && Sound(b, area, size) ==> Sound(b', area, size))
  {
    if MayHop(b) && Around(h.areas, b.at.value, size).Some? {
      AroundIsMonitor(h.areas, b.at.value, size);
      var b' := HoppedInPlace(b, h, size);
      if Inside(b, area, size) && b'.hop.Some? { FreshHop(b'.hop.value, area, size); }
    }
  }

  // ---------------------------------------------------------- on the ground

  lemma SettledIsInside(b: Pet, h: Habitat, size: real, area: Rect)
    requires OneMonitor(h, area) && Inside(b, area, size) && Sound(b, area, size)
    ensures Sound(Settled(b, h, size), area, size) && Inside(Settled(b, h, size), area, size)
  {
    LandingIsNearest(h.surfaces, b.at.value, None, size);
  }

  lemma PatrolIsInside(b: Pet, s: Surface, dt: real, size: real, playful: bool, area: Rect)
    requires Inside(b, area, size) && OnMonitor(s, area) && Rests(s, b.at.value.x, size)
    ensures Inside(Patrolled(b, s, dt, size, playful), area, size)
    ensures Rests(s, Patrolled(b, s, dt, size, playful).at.value.x, size)
  {
  }

  /** The fall step before landing is considered. */
  function FallDepth(b: Pet, dt: real): real
    requires b.at.Some?
  {
    b.at.value.y + Min(b.velocity + 600.0 * dt, 500.0) * dt
  }

  lemma FallGoesDown(b: Pet, dt: real)
    requires b.at.Some? && b.velocity >= 0.0 && dt >= 0.0
    ensures FallDepth(b, dt) >= b.at.value.y
  {
    Scaled(0.0, Min(b.velocity + 600.0 * dt, 500.0), dt);
  }

  lemma FallIsInside(b: Pet, h: Habitat, dt: real, size: real, area: Rect)
    requires OneMonitor(h, area) && Ample(area, size) && Inside(b, area, size) && Sound(b, area, size) && b.hop.None?
    requires 0.0 <= dt && Support(h.surfaces, b.at.value, size).None?
    ensures Sound(Fallen(b, h, dt, size), area, size) && Inside(Fallen(b, h, dt, size), area, size)
  {
    var floor, p, next := Surface(area.x, area.Right(), area.Bottom()), b.at.value, FallDepth(b, dt);
    FallGoesDown(b, dt);
    LandingIsNearest(h.surfaces, p, Some(next), size);
    SupportFound(h.surfaces, p, size);
    assert !Supports(floor, p, size);
    assert !Reaches(floor, p, Some(next), size) ==> next < area.Bottom();
  }

  lemma GroundIsInside(b: Pet, h: Habitat, dt: real, size: real, mood: Mood, area: Rect)
    requires OneMonitor(h, area) && Ample(area, size) && Inside(b, area, size) && Sound(b, area, size) && b.hop.None? && 0.0 <= dt
    ensures Sound(Grounded(b, h, dt, size, mood), area, size) && Inside(Grounded(b, h, dt, size, mood), area, size)
  {
    SupportFound(h.surfaces, b.at.value, size);
    var support := Support(h.surfaces, b.at.value, size);
    if support.Some? {
      var standing := b.(falling := false, velocity := 0.0, moving := true);
      PatrolIsInside(standing, support.value, dt, size, mood.playful, area);
    } else {
      FallIsInside(b, h, dt, size, area);
    }
  }

  lemma FidgetIsContained(b: Pet, h: Habitat, size: real, mood: Mood, hypot: (real, real) -> real, area: Rect)
    requires OneMonitor(h, area) && Ample(area, size) && Inside(b, area, size) && Sound(b, area, size) && !b.hidden
    ensures var b' := Fidgeted(b, h, size, mood, hypot); Sound(b', area, size) && b'.at == b.at
  {
    if !mood.active && b.age >= b.nextHop {
      var later := b.(nextHop := b.age + (if mood.playful then 10.0 else 24.0));
      ApproachIsContained(later, h, size, hypot, area);
      BounceIsContained(Approached(later, h, size, hypot), h, size, area);
    }
  }

  lemma FreedIsInside(b: Pet, h: Habitat, dt: real, size: real, mood: Mood, platform: Platform, area: Rect)
    requires OneMonitor(h, area) && Ample(area, size) && Inside(b, area, size) && Sound(b, area, size) && b.hop.None?
    requires 0.0 <= dt && !b.hidden
    ensures var b' := Freed(b, h, dt, size, mood, platform); Sound(b', area, size) && Inside(b', area, size)
  {
    FidgetIsContained(b, h, size, mood, platform.hypot, area);
    var fidgeted := Fidgeted(b, h, size, mood, platform.hypot);
    if fidgeted.hop.None? { GroundIsInside(fidgeted, h, dt, size, mood, area); }
  }

  lemma MoveIsInside(b: Pet, h: Habitat, dt: real, size: real, mood: Mood, platform: Platform, area: Rect)
    requires OneMonitor(h, area) && Ample(area, size) && Inside(b, area, size) && Sound(b, area, size)
    requires 0.0 <= dt && !b.hidden && Arched(platform.arch)
    ensures var b' := Moved(b, h, dt, size, mood, platform); Sound(b', area, size) && Inside(b', area, size)
  {
    var older := b.(age := b.age + dt);
    if older.hop.None? {
      FreedIsInside(older, h, dt, size, mood, platform, area);
    } else if HoldsTarget(h.surfaces, older.hop.value, size) {
      HopStaysInside(older, dt, platform.arch, area, size);
    } else {
      FreedIsInside(older.(hop := None, hopping := false, velocity := 0.0), h, dt, size, mood, platform, area);
    }
  }

  /** Every tick of a free, visible pet ends on its monitor, whatever the windows do. */
  lemma TickEndsInside(b: Pet, h: Habitat, dt: real, size: real, mood: Mood, platform: Platform, area: Rect)
    requires OneMonitor(h, area) && Ample(area, size) && Nearly(b, area, size) && Arched(platform.arch)
    ensures Sound(Ticked(b, h, dt, size, mood, platform), area, size)
    ensures !b.dragging && !b.hidden ==> Inside(Ticked(b, h, dt, size, mood, platform), area, size)
  {
    var still := b.(moving := false);
    if !Inert(still, h) {
      RecoveredIsInside(still, h, area, size);
      var placed := Recovered(still, h, size);
      SettledIsInside(placed, h, size, area);
      MoveIsInside(placed, h, Clamp(dt, 0.0, 0.05), size, mood, platform, area);
    }
  }

  // ------------------------------------------------------------------- falls

  /** A fall step passes no surface that could hold the pet. */
  lemma FallPassesNothing(b: Pet, h: Habitat, dt: real, size: real)
    requires b.at.Some? && b.velocity >= 0.0 && dt >= 0.0
    ensures var b' := Fallen(b, h, dt, size);
            && b'.at.Some? && b.at.value.y <= b'.at.value.y && b'.at.value.x == b.at.value.x
            && (forall s :: s in h.surfaces && Rests(s, b.at.value.x, size) && b.at.value.y <= s.y ==>
                 if b'.falling then b'.at.value.y < s.y else b'.at.value.y <= s.y)
            && (!b'.falling ==> exists s :: s in h.surfaces && Rests(s, b.at.value.x, size) && s.y == b'.at.value.y)
  {
    FallGoesDown(b, dt);
    LandingIsNearest(h.surfaces, b.at.value, Some(FallDepth(b, dt)), size);
  }

  lemma FidgetWithoutHop(b: Pet, h: Habitat, size: real, mood: Mood, hypot: (real, real) -> real)
    requires b.hop.None? && b.at.Some? && Fidgeted(b, h, size, mood, hypot).hop.None?
    ensures var b' := Fidgeted(b, h, size, mood, hypot); b'.at == b.at && b'.velocity == b.velocity
  {
  }

  lemma FidgetWithHop(b: Pet, h: Habitat, size: real, mood: Mood, hypot: (real, real) -> real)
    requires b.hop.None? && b.at.Some? && Fidgeted(b, h, size, mood, hypot).hop.Some?
    ensures !Fidgeted(b, h, size, mood, hypot).falling
  {
  }

  lemma FreedFalling(b: Pet, h: Habitat, dt: real, size: real, mood: Mood, platform: Platform)
    requires b.at.Some? && b.hop.None? && Freed(b, h, dt, size, mood, platform).falling
    ensures var last := Fidgeted(b, h, size, mood, platform.hypot);
            && last.at == b.at && last.velocity == b.velocity
            && Freed(b, h, dt, size, mood, platform) == Fallen(last, h, dt, size)
  {
    if Fidgeted(b, h, size, mood, platform.hypot).hop.Some? {
      FidgetWithHop(b, h, size, mood, platform.hypot);
    } else {
      FidgetWithoutHop(b, h, size, mood, platform.hypot);
    }
  }

  lemma FallingMeansFallen(b: Pet, h: Habitat, dt: real, size: real, mood: Mood, platform: Platform) returns (last: Pet)
    requires b.at.Some? && b.velocity >= 0.0 && Timed(b)
    requires Moved(b, h, dt, size, mood, platform).falling
    ensures last.at == b.at && last.velocity >= 0.0
    ensures Moved(b, h, dt, size, mood, platform) == Fallen(last, h, dt, size)
  {
    var older := b.(age := b.age + dt);
    var free := if older.hop.None? then older else older.(hop := None, hopping := false, velocity := 0.0);
    FreedFalling(free, h, dt, size, mood, platform);
    last := Fidgeted(free, h, size, mood, platform.hypot);
  }

  lemma Product(speed: real, step: real, d: real)
    requires 0.0 < d <= step && speed >= 600.0 * d
    ensures speed * step >= 600.0 * d * d
  {
    var gain := 600.0 * d;
    Scaled(gain, speed, step);
    Scaled(d, step, gain);
    assert d * gain == 600.0 * d * d && gain * step == step * gain;
  }

  lemma FallenDescends(b: Pet, h: Habitat, step: real, d: real, size: real)
    requires b.at.Some? && b.velocity >= 0.0 && 0.0 < d <= step <= 0.05 && Fallen(b, h, step, size).falling
    ensures var b' := Fallen(b, h, step, size); b'.at.Some? && b'.at.value.y >= b.at.value.y + 600.0 * d * d
  {
    Product(Min(b.velocity + 600.0 * step, 500.0), step, d);
  }

  /** A tick that ends falling has come down at least this far. */
  lemma FallingTickDescends(b: Pet, h: Habitat, dt: real, d: real, size: real, mood: Mood, platform: Platform, area: Rect)
    requires OneMonitor(h, area) && Inside(b, area, size) && Sound(b, area, size)
    requires !b.paused && !b.dragging && !b.hidden && !mood.reduced && 0.0 < d <= 0.05 && d <= dt
    requires Ticked(b, h, dt, size, mood, platform).falling
    ensures var b' := Ticked(b, h, dt, size, mood, platform);
            b'.at.Some? && b'.at.value.y >= b.at.value.y + 600.0 * d * d && !b'.paused && !b'.dragging && !b'.hidden
  {
    assert FitsAny(h.areas, b.at.value, size) by { assert Fits(h.areas[0].rect, b.at.value, size); }
    var step := Clamp(dt, 0.0, 0.05);
    var last := FallingMeansFallen(b.(moving := false), h, step, size, mood, platform);
    FallenDescends(last, h, step, d, size);
  }

  datatype Moment = Moment(windows: seq<Rect>, dt: real, mood: Mood)

  function TickAt(b: Pet, m: Moment, areas: seq<Area>, size: real, platform: Platform): Pet
    requires Timed(b)
  {
    Ticked(b, NewHabitat(areas, m.windows), m.dt, size, m.mood, platform)
  }

  /** Each of these ticks ends with the pet falling. */
  predicate KeepsFalling(b: Pet, ticks: seq<Moment>, areas: seq<Area>, size: real, platform: Platform)
    decreases |ticks|
  {
    ticks == [] || (Timed(b) && var b' := TickAt(b, ticks[0], areas, size, platform);
                    b'.falling && KeepsFalling(b', ticks[1..], areas, size, platform))
  }

  /** A free pet on its monitor that keeps falling over frames no shorter than `d`. */
  ghost predicate Descends(b: Pet, ticks: seq<Moment>, d: real, areas: seq<Area>, size: real, platform: Platform) {
    && |Usable(areas)| == 1 && Ample(Usable(areas)[0].rect, size) && Arched(platform.arch)
    && Sound(b, Usable(areas)[0].rect, size) && Inside(b, Usable(areas)[0].rect, size)
    && !b.paused && !b.dragging && !b.hidden && 0.0 < d <= 0.05
    && (forall m :: m in ticks ==> m.dt >= d && !m.mood.reduced)
    && KeepsFalling(b, ticks, areas, size, platform)
  }

  /** `each`, added up `n` times. */
  function Times(n: nat, each: real): real { if n == 0 then 0.0 else Times(n - 1, each) + each }

  lemma {:induction false} TimesIsProduct(n: nat, each: real)
    ensures Times(n, each) == n as real * each
  {
    if n > 0 {
      TimesIsProduct(n - 1, each);
      assert n as real * each == (n - 1) as real * each + each;
    }
  }

  /**
   With frames no shorter than `d`, a fall lasts at most the height left under
   the pet divided by 600 d^2, even while windows come and go.
   */
  lemma {:induction false} FallsAreShort(b: Pet, ticks: seq<Moment>, d: real, drop: real, areas: seq<Area>, size: real, platform: Platform)
    requires Descends(b, ticks, d, areas, size, platform) && drop == 600.0 * d * d
    ensures Times(|ticks|, drop) <= Usable(areas)[0].rect.Bottom() + 1.0 - b.at.value.y
    decreases |ticks|
  {
    if ticks != [] {
      FallingMoment(b, ticks, d, areas, size, platform);
      FallsAreShort(TickAt(b, ticks[0], areas, size, platform), ticks[1..], d, drop, areas, size, platform);
    }
  }

  lemma FallingMoment(b: Pet, ticks: seq<Moment>, d: real, areas: seq<Area>, size: real, platform: Platform)
    requires Descends(b, ticks, d, areas, size, platform) && ticks != []
    ensures var b' := TickAt(b, ticks[0], areas, size, platform);
            Descends(b', ticks[1..], d, areas, size, platform) && b'.at.value.y >= b.at.value.y + 600.0 * d * d
  {
    var area, m := Usable(areas)[0].rect, ticks[0];
    var h := NewHabitat(areas, m.windows);
    assert m in ticks;
    MonitorHabitat(areas, m.windows);
    TickEndsInside(b, h, m.dt, size, m.mood, platform, area);
    FallingTickDescends(b, h, m.dt, d, size, m.mood, platform, area);
  }

  // -------------------------------------------- support, landing and target

  /** A pet whose agent is busy does not wander off the surface it stands on. */
  lemma BusyPetStands(b: Pet, h: Habitat, dt: real, size: real, mood: Mood, platform: Platform)
    requires b.at.Some? && FitsAny(h.areas, b.at.value, size) && h.areas != [] && b.hop.None? && mood.active && !mood.reduced
    requires exists s :: s in h.surfaces && Supports(s, b.at.value, size)
    ensures Ticked(b, h, dt, size, mood, platform).at == b.at && !Ticked(b, h, dt, size, mood, platform).moving
  {
    SupportFound(h.surfaces, b.at.value, size);
  }
}
