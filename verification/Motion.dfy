/**
 How a desktop pet moves: walking, hopping and falling over the surfaces of a
 habitat, one clock tick at a time. Positions are those of its feet; a pet that
 was never placed has none.
 */
module Motion {
  import opened Options
  import opened Habitats

  datatype Point = Point(x: real, y: real)
  datatype Hop = Hop(from: Point, to: Point, age: real, duration: real, lift: real)
  datatype Mood = Mood(active: bool, reduced: bool, playful: bool)

  datatype Pet = Pet(
    at: Option<Point>, direction: real, moving: bool, falling: bool, hopping: bool,
    dragging: bool, paused: bool, hidden: bool,
    velocity: real, age: real, seed: nat, hop: Option<Hop>, nextHop: real)

  /** The functions of the platform: the hypotenuse, and sin(pi * t). */
  datatype Platform = Platform(hypot: (real, real) -> real, arch: real -> real)

  function NewPet(seed: nat): Pet {
    Pet(None, if seed % 2 == 0 then 1.0 else -1.0, false, false, false, false, false, false,
        0.0, seed as real * 1.7, seed, None, 12.0 + seed as real * 3.0)
  }

  function Clamp(v: real, low: real, high: real): real { if v < low then low else if v > high then high else v }

  function Abs(v: real): real { if v < 0.0 then -v else v }

  function Remainder(v: real, cycle: real): real
    requires cycle > 0.0
  {
    v - cycle * (v / cycle).Floor as real
  }

  // ---------------------------------------------------------------- surfaces

  predicate Rests(s: Surface, x: real, size: real) {
    s.left + size / 2.0 <= x <= s.right - size / 2.0
  }

  predicate Supports(s: Surface, p: Point, size: real) {
    Abs(s.y - p.y) < 2.0 && Rests(s, p.x, size)
  }

  /** The first surface a point stands on. */
  function Support(surfaces: seq<Surface>, p: Point, size: real): Option<Surface> {
    if surfaces == [] then None
    else if Supports(surfaces[0], p, size) then Some(surfaces[0])
    else Support(surfaces[1..], p, size)
  }

  predicate Reaches(s: Surface, p: Point, limit: Option<real>, size: real) {
    s.y >= p.y && (limit.Some? ==> s.y <= limit.value) && Rests(s, p.x, size)
  }

  /** The nearest surface at or under a point, no lower than the limit. */
  function Landing(surfaces: seq<Surface>, p: Point, limit: Option<real>, size: real): Option<Surface> {
    if surfaces == [] then None
    else
      var rest := Landing(surfaces[1..], p, limit, size);
      if Reaches(surfaces[0], p, limit, size) && (rest.None? || surfaces[0].y <= rest.value.y) then Some(surfaces[0]) else rest
  }

  predicate Fits(area: Rect, p: Point, size: real) {
    && area.x + size / 2.0 <= p.x <= area.Right() - size / 2.0
    && area.y + size <= p.y <= area.Bottom() + 1.0
  }

  // ------------------------------------------------------------------ hopping

  datatype Target = Target(distance: real, to: Point, area: Rect)

  /** The first monitor on which a pet can hop from `x` to `to`. */
  function Common(areas: seq<Area>, x: real, to: Point, size: real): Option<Rect> {
    if areas == [] then None
    else
      var r := areas[0].rect;
      if && r.x + size / 2.0 <= x <= r.Right() - size / 2.0
         && r.x + size / 2.0 <= to.x <= r.Right() - size / 2.0
         && r.y + size <= to.y <= r.Bottom() then Some(r)
      else Common(areas[1..], x, to, size)
  }

  function TargetOn(s: Surface, areas: seq<Area>, p: Point, size: real, hypot: (real, real) -> real): Option<Target> {
    if s.right - s.left < size || Abs(s.y - p.y) > size * 2.5 || Abs(s.y - p.y) < 4.0 then None
    else
      var x := Clamp(p.x, s.left + size / 2.0, s.right - size / 2.0);
      if Abs(x - p.x) > size * 3.0 then None
      else
        var area := Common(areas, p.x, Point(x, s.y), size);
        if area.None? then None else Some(Target(hypot(x - p.x, s.y - p.y), Point(x, s.y), area.value))
  }

  /** The closest target, the earliest one among equals. */
  function Closest(surfaces: seq<Surface>, areas: seq<Area>, p: Point, size: real, hypot: (real, real) -> real): Option<Target> {
    if surfaces == [] then None
    else
      var rest := Closest(surfaces[1..], areas, p, size, hypot);
      var own := TargetOn(surfaces[0], areas, p, size, hypot);
      if own.Some? && (rest.None? || own.value.distance <= rest.value.distance) then own else rest
  }

  /** What holds of a pet wherever it is: it is never thrown up, and its hop is well formed. */
  predicate Steady(b: Pet) {
    && b.velocity >= 0.0 && b.hopping == b.hop.Some? && (b.falling ==> b.hop.None?)
    && (b.hop.Some? ==> 
          b.at.Some? && 0.0 <= b.hop.value.age < b.hop.value.duration && b.hop.value.lift >= 0.0)
  }

  predicate SameFlags(b: Pet, b': Pet) {
    b'.dragging == b.dragging && b'.paused == b.paused && b'.hidden == b.hidden && b'.seed == b.seed
  }

  predicate Faces(b: Pet) { b.direction == 1.0 || b.direction == -1.0 }

  predicate MayHop(b: Pet) { b.hop.None? && !b.dragging && !b.paused && b.at.Some? }

  function Hops(b: Pet, hop: Hop): Pet {
    b.(hop := Some(hop), hopping := true, moving := false, falling := false)
  }

  function Approached(b: Pet, h: Habitat, size: real, hypot: (real, real) -> real): (b': Pet)
    ensures SameFlags(b, b') && (Faces(b) ==> Faces(b'))
    ensures Steady(b) ==> Steady(b')
   {
    if !MayHop(b) then b
    else
      var p := b.at.value;
      var target := Closest(h.surfaces, h.areas, p, size, hypot);
      if target.None? then b
      else
        var t := target.value;
        var lift := Max(Min(size * 0.65, Min(p.y, t.to.y) - t.area.y - size), 0.0);
        Hops(b.(direction := if t.to.x < p.x then -1.0 else 1.0),
             Hop(p, t.to, 0.0, Clamp(t.distance / 220.0, 0.5, 1.4), lift))
  }

  /** The first monitor a point is on, with room for the pet above it. */
  function Around(areas: seq<Area>, p: Point, size: real): Option<Rect> {
    if areas == [] then None
    else
      var r := areas[0].rect;
      if r.x <= p.x <= r.Right() && r.y + size <= p.y <= r.Bottom() then Some(r) else Around(areas[1..], p, size)
  }

  function HoppedInPlace(b: Pet, h: Habitat, size: real): (b': Pet)
    ensures SameFlags(b, b') && (Faces(b) ==> Faces(b'))
    ensures Steady(b) ==> Steady(b')
   {
    if !MayHop(b) then b
    else
      var p := b.at.value;
      var area := Around(h.areas, p, size);
      if area.None? then b
      else
        var lift := Max(Min(size * 0.6, p.y - area.value.y - size), 0.0);
        if lift > 0.0 then Hops(b, Hop(p, p, 0.0, 0.65, lift)) else b
  }

  // ------------------------------------------------------------------- a tick

  /** The place of the pet in a slot: side by side from the right of the floor. */
  function Corner(area: Rect, slot: nat, size: real): Point {
    Point(Max(area.Right() - size * (slot as real + 1.0) - 24.0, area.x + size / 2.0), area.Bottom())
  }

  function Homed(b: Pet, h: Habitat, size: real): (b': Pet)
    ensures SameFlags(b, b') && (Faces(b) ==> Faces(b'))
    ensures Steady(b) ==> Steady(b')
   {
    if h.areas == [] then b
    else
      b.(at := Some(Corner(h.areas[0].rect, b.seed, size)), velocity := 0.0, falling := false, hop := None, hopping := false)
  }

  predicate FitsAny(areas: seq<Area>, p: Point, size: real) {
    exists k :: 0 <= k < |areas| && Fits(areas[k].rect, p, size)
  }

  function Settled(b: Pet, h: Habitat, size: real): (b': Pet)
    requires b.at.Some?
    ensures SameFlags(b, b') && (Faces(b) ==> Faces(b'))
    ensures Steady(b) ==> Steady(b')
  {
    var landing := Landing(h.surfaces, b.at.value, None, size);
    b.(hop := None, hopping := false, falling := false,
       at := Some(if landing.Some? then Point(b.at.value.x, landing.value.y) else b.at.value))
  }

  predicate HoldsTarget(surfaces: seq<Surface>, hop: Hop, size: real) {
    exists k :: 0 <= k < |surfaces| && Supports(surfaces[k], hop.to, size)
  }

  function Ease(t: real): real { t * t * (3.0 - 2.0 * t) }

  function Progress(hop: Hop): real
    requires hop.duration > 0.0
  {
    Min(hop.age / hop.duration, 1.0)
  }

  lemma ProgressEnds(hop: Hop)
    requires hop.duration > 0.0
    ensures Progress(hop) <= 1.0 && (Progress(hop) < 1.0 <==> hop.age < hop.duration)
  {
    if hop.age < hop.duration { assert hop.age / hop.duration < 1.0; }
    else { assert hop.age / hop.duration >= 1.0; }
  }

  /** The place a part `e` of the way along a hop, `dip` of its lift up. */
  function OnArc(hop: Hop, e: real, dip: real): Point {
    Point(hop.from.x + (hop.to.x - hop.from.x) * e, hop.from.y + (hop.to.y - hop.from.y) * e - dip * hop.lift)
  }

  function Hopped(b: Pet, dt: real, arch: real -> real): (b': Pet)
    requires b.hop.Some? && b.hop.value.duration > 0.0
    ensures SameFlags(b, b') && (Faces(b) ==> Faces(b'))
    ensures Steady(b) && dt >= 0.0 ==> Steady(b')
  {
    var hop := b.hop.value.(age := b.hop.value.age + dt);
    var t := Progress(hop);
    ProgressEnds(hop);
    b.(at := Some(OnArc(hop, Ease(t), arch(t))), hopping := t < 1.0, falling := false,
       hop := if t < 1.0 then Some(hop) else None,
       velocity := if t < 1.0 then b.velocity else 0.0)
  }

  function Stride(direction: real, dt: real, playful: bool): real {
    direction * (if playful then 44.0 else 27.0) * dt
  }

  function Patrolled(b: Pet, s: Surface, dt: real, size: real, playful: bool): (b': Pet)
    requires b.at.Some?
    ensures SameFlags(b, b') && (Faces(b) ==> Faces(b'))
  {
    var x := b.at.value.x + Stride(b.direction, dt, playful);
    var leftmost, rightmost := s.left + size / 2.0, s.right - size / 2.0;
    var heading := if x <= leftmost then 1.0 else b.direction;
    var held := Max(x, leftmost);
    b.(at := Some(Point(Min(held, rightmost), b.at.value.y)),
       direction := if held >= rightmost then -1.0 else heading)
  }

  function Walked(b: Pet, s: Surface, dt: real, size: real, mood: Mood): (b': Pet)
    requires b.at.Some?
    ensures SameFlags(b, b') && (Faces(b) ==> Faces(b'))
    ensures Steady(b) && dt >= 0.0 ==> Steady(b')
  {
    var cycle := if mood.playful then 8.0 else 16.0;
    var strolls := !mood.active && Remainder(b.age, cycle) > cycle * 0.55;
    var standing := b.(falling := false, velocity := 0.0, moving := strolls);
    if strolls then Patrolled(standing, s, dt, size, mood.playful) else standing
  }

  function Fallen(b: Pet, h: Habitat, dt: real, size: real): (b': Pet)
    requires b.at.Some?
    ensures SameFlags(b, b') && (Faces(b) ==> Faces(b'))
    ensures Steady(b) && b.hop.None? && dt >= 0.0 ==> Steady(b')
  {
    var p, speed := b.at.value, Min(b.velocity + 600.0 * dt, 500.0);
    var next := p.y + speed * dt;
    var landing := Landing(h.surfaces, p, Some(next), size);
    if landing.Some? then b.(at := Some(Point(p.x, landing.value.y)), velocity := 0.0, falling := false)
    else b.(at := Some(Point(p.x, next)), velocity := speed, falling := true)
  }

  function Grounded(b: Pet, h: Habitat, dt: real, size: real, mood: Mood): (b': Pet)
    requires b.at.Some?
    ensures SameFlags(b, b') && (Faces(b) ==> Faces(b'))
    ensures Steady(b) && b.hop.None? && dt >= 0.0 ==> Steady(b')
  {
    var support := Support(h.surfaces, b.at.value, size);
    if support.Some? then Walked(b, support.value, dt, size, mood) else Fallen(b, h, dt, size)
  }

  /** Now and then an idle pet starts a hop. */
  function Fidgeted(b: Pet, h: Habitat, size: real, mood: Mood, hypot: (real, real) -> real): (b': Pet)
    ensures SameFlags(b, b') && (Faces(b) ==> Faces(b'))
    ensures Steady(b) ==> Steady(b')
   {
    if mood.active || b.age < b.nextHop then b
    else
      var tried := Approached(b.(nextHop := b.age + (if mood.playful then 10.0 else 24.0)), h, size, hypot);
      if mood.playful && tried.hop.None? then HoppedInPlace(tried, h, size) else tried
  }

  function Freed(b: Pet, h: Habitat, dt: real, size: real, mood: Mood, platform: Platform): (b': Pet)
    requires b.at.Some? && b.hop.None?
    ensures SameFlags(b, b') && (Faces(b) ==> Faces(b'))
    ensures Steady(b) && dt >= 0.0 ==> Steady(b')
  {
    var fidgeted := Fidgeted(b, h, size, mood, platform.hypot);
    if fidgeted.hop.Some? then fidgeted else Grounded(fidgeted, h, dt, size, mood)
  }

  function Moved(b: Pet, h: Habitat, dt: real, size: real, mood: Mood, platform: Platform): (b': Pet)
    requires b.at.Some? && (b.hop.Some? ==> b.hop.value.duration > 0.0)
    ensures SameFlags(b, b') && (Faces(b) ==> Faces(b'))
    ensures Steady(b) && dt >= 0.0 ==> Steady(b')
  {
    var older := b.(age := b.age + dt);
    if older.hop.None? then Freed(older, h, dt, size, mood, platform)
    else if HoldsTarget(h.surfaces, older.hop.value, size) then Hopped(older, dt, platform.arch)
    else Freed(older.(hop := None, hopping := false, velocity := 0.0), h, dt, size, mood, platform)
  }

  function Recovered(b: Pet, h: Habitat, size: real): (b': Pet)
    ensures SameFlags(b, b') && (Faces(b) ==> Faces(b'))
    ensures Steady(b) ==> Steady(b')
   {
    if b.at.Some? && FitsAny(h.areas, b.at.value, size) then b else Homed(b, h, size)
  }

  predicate Inert(b: Pet, h: Habitat) { h.areas == [] || b.dragging || b.hidden }

  /** The times of a pet's hop are positive, so that its progress is defined. */
  predicate Timed(b: Pet) { b.hop.Some? ==> b.hop.value.duration > 0.0 }

  function Ticked(b: Pet, h: Habitat, dt: real, size: real, mood: Mood, platform: Platform): (b': Pet)
    requires Timed(b)
    ensures SameFlags(b, b') && (Faces(b) ==> Faces(b'))
    ensures Steady(b) ==> Steady(b')
  {
    var still := b.(moving := false);
    if Inert(still, h) then still
    else
      var placed := Recovered(still, h, size);
      if placed.paused then placed
      else if mood.reduced then Settled(placed, h, size)
      else Moved(placed, h, Clamp(dt, 0.0, 0.05), size, mood, platform)
  }

  function DragStopped(b: Pet): Pet { b.(hop := None, hopping := false, velocity := 0.0) }

  // ------------------------------------------------------------- the object

  class Body {
    var at: Option<Point>
    var direction: real
    var moving: bool
    var falling: bool
    var hopping: bool
    var dragging: bool
    var paused: bool
    var hidden: bool
    var velocity: real
    var age: real
    var seed: nat
    var hop: Option<Hop>
    var nextHop: real

    ghost function View(): Pet
      reads this
    {
      Pet(at, direction, moving, falling, hopping, dragging, paused, hidden, velocity, age, seed, hop, nextHop)
    }

    constructor (seed: nat)
      ensures View() == NewPet(seed)
    {
      at, hop := None, None;
      direction := if seed % 2 == 0 then 1.0 else -1.0;
      moving, falling, hopping, dragging, paused, hidden := false, false, false, false, false, false;
      velocity, age, nextHop := 0.0, seed as real * 1.7, 12.0 + seed as real * 3.0;
      this.seed := seed;
    }

    method Home(h: Habitat, size: real)
      modifies this
      ensures View() == Homed(old(View()), h, size)
      ensures h.areas != [] ==> at.Some? && at.value.y == h.areas[0].rect.Bottom() && hop.None? && !hopping && !falling
      ensures h.areas == [] ==> View() == old(View())
    {
      if h.areas != [] {
        at := Some(Corner(h.areas[0].rect, seed, size));
        velocity, falling, hop, hopping := 0.0, false, None, false;
      }
    }

    method StopDrag()
      modifies this
      ensures View() == DragStopped(old(View()))
    {
      hop, hopping, velocity := None, false, 0.0;
    }

    method StartHop(to: Point, duration: real, lift: real)
      requires at.Some?
      modifies this
      ensures View() == Hops(old(View()), Hop(old(at.value), to, 0.0, duration, lift))
    {
      hop := Some(Hop(at.value, to, 0.0, duration, lift));
      hopping, moving, falling := true, false, false;
    }

    method Approach(h: Habitat, size: real, hypot: (real, real) -> real)
      modifies this
      ensures View() == Approached(old(View()), h, size, hypot)
      ensures at == old(at) && (old(dragging) || old(paused) ==> hop == old(hop))
    {
      if hop.Some? || dragging || paused || at.None? { return; }
      var target := Closest(h.surfaces, h.areas, at.value, size, hypot);
      if target.Some? {
        var t := target.value;
        var lift := Max(Min(size * 0.65, Min(at.value.y, t.to.y) - t.area.y - size), 0.0);
        direction := if t.to.x < at.value.x then -1.0 else 1.0;
        StartHop(t.to, Clamp(t.distance / 220.0, 0.5, 1.4), lift);
      }
    }

    method HopInPlace(h: Habitat, size: real)
      modifies this
      ensures View() == HoppedInPlace(old(View()), h, size)
      ensures at == old(at) && (old(dragging) || old(paused) ==> hop == old(hop))
    {
      if hop.Some? || dragging || paused || at.None? { return; }
      var area := Around(h.areas, at.value, size);
      if area.Some? {
        var lift := Max(Min(size * 0.6, at.value.y - area.value.y - size), 0.0);
        if lift > 0.0 { StartHop(at.value, 0.65, lift); }
      }
    }

    method Settle(h: Habitat, size: real)
      requires at.Some?
      modifies this
      ensures View() == Settled(old(View()), h, size)
    {
      hop, hopping, falling := None, false, false;
      var landing := Landing(h.surfaces, at.value, None, size);
      if landing.Some? { at := Some(Point(at.value.x, landing.value.y)); }
    }

    method FollowHop(taken: Hop, dt: real, arch: real -> real)
      requires hop == Some(taken) && taken.duration > 0.0
      modifies this
      ensures View() == Hopped(old(View()), dt, arch)
    {
      var next := taken.(age := taken.age + dt);
      var t := Min(next.age / next.duration, 1.0);
      at := Some(OnArc(next, Ease(t), arch(t)));
      hopping, falling := t < 1.0, false;
      if t < 1.0 { hop := Some(next); } else { hop, velocity := None, 0.0; }
    }

    method Walk(surface: Surface, dt: real, size: real, mood: Mood)
      requires at.Some?
      modifies this
      ensures View() == Walked(old(View()), surface, dt, size, mood)
    {
      falling, velocity := false, 0.0;
      var cycle := if mood.playful then 8.0 else 16.0;
      moving := !mood.active && Remainder(age, cycle) > cycle * 0.55;
      if moving { Patrol(surface, dt, size, mood.playful); }
    }

    method Patrol(surface: Surface, dt: real, size: real, playful: bool)
      requires at.Some?
      modifies this
      ensures View() == Patrolled(old(View()), surface, dt, size, playful)
    {
      var x := at.value.x + Stride(direction, dt, playful);
      if x <= surface.left + size / 2.0 {
        x, direction := surface.left + size / 2.0, 1.0;
      }
      if x >= surface.right - size / 2.0 {
        x, direction := surface.right - size / 2.0, -1.0;
      }
      at := Some(Point(x, at.value.y));
    }

    method Fall(h: Habitat, dt: real, size: real)
      requires at.Some?
      modifies this
      ensures View() == Fallen(old(View()), h, dt, size)
    {
      falling, velocity := true, Min(velocity + 600.0 * dt, 500.0);
      var next := at.value.y + velocity * dt;
      var landing := Landing(h.surfaces, at.value, Some(next), size);
      if landing.Some? {
        at, velocity, falling := Some(Point(at.value.x, landing.value.y)), 0.0, false;
      } else {
        at := Some(Point(at.value.x, next));
      }
    }

    method Roam(h: Habitat, dt: real, size: real, mood: Mood, platform: Platform)
      requires at.Some? && hop.None?
      modifies this
      ensures View() == Freed(old(View()), h, dt, size, mood, platform)
    {
      if !mood.active && age >= nextHop {
        nextHop := age + (if mood.playful then 10.0 else 24.0);
        Approach(h, size, platform.hypot);
        if mood.playful && hop.None? { HopInPlace(h, size); }
        if hop.Some? { return; }
      }
      var support := Support(h.surfaces, at.value, size);
      if support.Some? { Walk(support.value, dt, size, mood); } else { Fall(h, dt, size); }
    }

    method Tick(h: Habitat, dt: real, size: real, mood: Mood, platform: Platform)
      requires Timed(View())
      modifies this
      ensures View() == Ticked(old(View()), h, dt, size, mood, platform)
      ensures old(dragging) || old(hidden) ==> at == old(at) && hop == old(hop)
    {
      moving := false;
      if h.areas == [] || dragging || hidden { return; }
      if at.None? || !FitsAny(h.areas, at.value, size) { Home(h, size); }
      if paused { return; }
      if mood.reduced { Settle(h, size); return; }
      Move(h, Clamp(dt, 0.0, 0.05), size, mood, platform);
    }

    method Move(h: Habitat, step: real, size: real, mood: Mood, platform: Platform)
      requires at.Some? && Timed(View())
      modifies this
      ensures View() == Moved(old(View()), h, step, size, mood, platform)
    {
      age := age + step;
      if hop.Some? {
        if HoldsTarget(h.surfaces, hop.value, size) {
          FollowHop(hop.value, step, platform.arch);
          return;
        }
        hop, hopping, velocity := None, false, 0.0;
      }
      Roam(h, step, size, mood, platform);
    }
  }
}
