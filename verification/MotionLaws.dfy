/**
 What each stage of a tick does to a pet, said of points, edges and times alone,
 and that a strolling pet turns back at the edge it walks towards.
 */
module MotionLaws {
  import opened Options
  import opened Habitats
  import opened Motion
  import opened MotionSafety
  import MotionLives

  // ------------------------------------------------------------- strolling

  function Pace(playful: bool): real { if playful then 44.0 else 27.0 }

  /** Where the pet would be if the surface had no ends. */
  function Ahead(b: Pet, dt: real, playful: bool): real
    requires b.at.Some?
  {
    if b.direction == 1.0 then b.at.value.x + Pace(playful) * dt else b.at.value.x - Pace(playful) * dt
  }

  /** A stroller goes the way it faces, and turns where the surface ends under it. */
  predicate PatrolLaw(b: Pet, s: Surface, dt: real, size: real, playful: bool, b': Pet)
    requires b.at.Some?
  {
    var low, high, want := s.left + size / 2.0, s.right - size / 2.0, Ahead(b, dt, playful);
    && b' == b.(at := b'.at, direction := b'.direction) && b'.at.Some? && b'.at.value.y == b.at.value.y
    && low <= b'.at.value.x <= high
    && (low < want < high ==> b'.at.value.x == want && b'.direction == b.direction)
    && (want >= high ==> b'.at.value.x == high && b'.direction == -1.0)
    && (want <= low < high ==> b'.at.value.x == low && b'.direction == 1.0)
    && (low == high ==> b'.direction == -1.0)
  }

  lemma Stretched(b: Pet, dt: real, playful: bool)
    requires b.at.Some? && Faces(b)
    ensures b.at.value.x + Stride(b.direction, dt, playful) == Ahead(b, dt, playful)
  {
  }

  lemma PatrolLawful(b: Pet, s: Surface, dt: real, size: real, playful: bool)
    requires b.at.Some? && Faces(b) && s.left + size / 2.0 <= s.right - size / 2.0
    ensures PatrolLaw(b, s, dt, size, playful, Patrolled(b, s, dt, size, playful)) && Faces(Patrolled(b, s, dt, size, playful))
  {
    Stretched(b, dt, playful);
  }

  /** The pet after so many strides. */
  function Strolled(b: Pet, s: Surface, dt: real, size: real, playful: bool, n: nat): (b': Pet)
    requires b.at.Some?
    ensures b'.at.Some?
  {
    if n == 0 then b else Patrolled(Strolled(b, s, dt, size, playful, n - 1), s, dt, size, playful)
  }

  /** Its surface ends at `edge` the way it faces, and it has turned round there. */
  predicate TurnedAt(b: Pet, edge: real, facing: real) {
    b.at.Some? && b.at.value.x == edge && b.direction == -facing
  }

  /** Before it turns, every stride brings it a full step nearer to the edge it faces. */
  lemma {:induction false} StrideOrTurn(b: Pet, s: Surface, dt: real, size: real, playful: bool, n: nat) returns (k: nat)
    requires b.at.Some? && b.direction == 1.0 && Rests(s, b.at.value.x, size) && dt > 0.0
    ensures k <= n
    ensures || TurnedAt(Strolled(b, s, dt, size, playful, k), s.right - size / 2.0, 1.0)
            || (k == n && Strolled(b, s, dt, size, playful, n).direction == 1.0
                && Rests(s, Strolled(b, s, dt, size, playful, n).at.value.x, size)
                && Strolled(b, s, dt, size, playful, n).at.value.x == b.at.value.x + Times(n, Pace(playful) * dt))
  {
    if n == 0 {
      k := 0;
    } else {
      k := StrideOrTurn(b, s, dt, size, playful, n - 1);
      var before := Strolled(b, s, dt, size, playful, n - 1);
      if !TurnedAt(Strolled(b, s, dt, size, playful, k), s.right - size / 2.0, 1.0) {
        PatrolLawful(before, s, dt, size, playful);
        StepsAhead(dt, playful);
        k := n;
      }
    }
  }

  lemma StepsAhead(dt: real, playful: bool)
    requires dt > 0.0
    ensures Pace(playful) * dt > 0.0
  {
  }

  /** A pet that strolls on turns back at the edge it faces, within as many strides as lead there. */
  lemma TurnsBack(b: Pet, s: Surface, dt: real, size: real, playful: bool, n: nat) returns (k: nat)
    requires b.at.Some? && b.direction == 1.0 && Rests(s, b.at.value.x, size) && dt > 0.0
    requires b.at.value.x + Times(n, Pace(playful) * dt) > s.right - size / 2.0
    ensures k <= n && TurnedAt(Strolled(b, s, dt, size, playful, k), s.right - size / 2.0, 1.0)
  {
    k := StrideOrTurn(b, s, dt, size, playful, n);
  }

  predicate InCycle(age: real, cycle: real, n: int) {
    cycle * (n as real + 0.55) < age < cycle * (n as real + 1.0)
  }

  /** The age is in the last part of some cycle. */
  ghost predicate StrollTime(age: real, cycle: real) { exists n: int :: InCycle(age, cycle, n) }

  lemma CycleExactly(age: real, cycle: real)
    requires cycle == 8.0 || cycle == 16.0
    ensures Remainder(age, cycle) > cycle * 0.55 <==> StrollTime(age, cycle)
  {
    var whole := (age / cycle).Floor;
    assert Remainder(age, cycle) == age - cycle * whole as real;
    if Remainder(age, cycle) > cycle * 0.55 { assert InCycle(age, cycle, whole); }
    if n: int :| InCycle(age, cycle, n) {
      assert n as real < age / cycle < n as real + 1.0;
      assert whole == n;
    }
  }

  /** On a surface an idle pet strolls in the last part of its cycle, and otherwise stands. */
  ghost predicate WalkLaw(b: Pet, s: Surface, dt: real, size: real, mood: Mood, b': Pet)
    requires b.at.Some?
  {
    && (b'.moving <==> !mood.active && StrollTime(b.age, if mood.playful then 8.0 else 16.0))
    && (!b'.moving ==> b' == b.(falling := false, velocity := 0.0, moving := false))
    && (b'.moving ==> PatrolLaw(b.(falling := false, velocity := 0.0, moving := true), s, dt, size, mood.playful, b'))
  }

  lemma WalkLawful(b: Pet, s: Surface, dt: real, size: real, mood: Mood)
    requires b.at.Some? && Faces(b) && Rests(s, b.at.value.x, size)
    ensures WalkLaw(b, s, dt, size, mood, Walked(b, s, dt, size, mood))
  {
    CycleExactly(b.age, if mood.playful then 8.0 else 16.0);
    PatrolLawful(b.(falling := false, velocity := 0.0, moving := true), s, dt, size, mood.playful);
  }

  // --------------------------------------------------------- falling, settling

  /** The surface is at or below the feet, no lower than the limit, and as wide as the pet there. */
  predicate Below(s: Surface, p: Point, limit: Option<real>, size: real) {
    && p.y <= s.y && (limit.Some? ==> s.y <= limit.value)
    && s.left + size / 2.0 <= p.x && p.x + size / 2.0 <= s.right
  }

  /** The height of the nearest such surface. */
  ghost predicate Nearest(surfaces: seq<Surface>, p: Point, limit: Option<real>, size: real, y: real) {
    && (exists k :: 0 <= k < |surfaces| && Below(surfaces[k], p, limit, size) && surfaces[k].y == y)
    && (forall k :: 0 <= k < |surfaces| && Below(surfaces[k], p, limit, size) ==> y <= surfaces[k].y)
  }

  ghost predicate NoneBelow(surfaces: seq<Surface>, p: Point, limit: Option<real>, size: real) {
    forall k :: 0 <= k < |surfaces| ==> !Below(surfaces[k], p, limit, size)
  }

  lemma {:induction false} LandingExactly(surfaces: seq<Surface>, p: Point, limit: Option<real>, size: real)
    ensures var landing := Landing(surfaces, p, limit, size);
      if landing.Some? then Nearest(surfaces, p, limit, size, landing.value.y) else NoneBelow(surfaces, p, limit, size)
  {
    if surfaces != [] {
      var rest := surfaces[1..];
      LandingExactly(rest, p, limit, size);
      assert forall k :: 1 <= k < |surfaces| ==> surfaces[k] == rest[k - 1];
      var below := Landing(rest, p, limit, size);
      if below.Some? {
        var k :| 0 <= k < |rest| && Below(rest[k], p, limit, size) && rest[k].y == below.value.y;
        assert surfaces[k + 1] == rest[k];
      }
    }
  }

  /** Down to `next`, or onto the nearest surface on the way. */
  ghost predicate Drops(b: Pet, h: Habitat, next: real, speed: real, size: real, b': Pet)
    requires b.at.Some?
  {
    && b' == b.(at := b'.at, velocity := b'.velocity, falling := b'.falling) && b'.at.Some? && b'.at.value.x == b.at.value.x
    && (if NoneBelow(h.surfaces, b.at.value, Some(next), size) then b'.at.value.y == next && b'.velocity == speed && b'.falling
        else Nearest(h.surfaces, b.at.value, Some(next), size, b'.at.value.y) && b'.velocity == 0.0 && !b'.falling)
  }

  function Faster(velocity: real, dt: real): real { if velocity + 600.0 * dt <= 500.0 then velocity + 600.0 * dt else 500.0 }

  /** Faster and faster, up to a limit. */
  ghost predicate FallLaw(b: Pet, h: Habitat, dt: real, size: real, b': Pet)
    requires b.at.Some?
  {
    Drops(b, h, b.at.value.y + Faster(b.velocity, dt) * dt, Faster(b.velocity, dt), size, b')
  }

  function Dropped(b: Pet, h: Habitat, next: real, speed: real, size: real): Pet
    requires b.at.Some?
  {
    var landing := Landing(h.surfaces, b.at.value, Some(next), size);
    if landing.Some? then b.(at := Some(Point(b.at.value.x, landing.value.y)), velocity := 0.0, falling := false)
    else b.(at := Some(Point(b.at.value.x, next)), velocity := speed, falling := true)
  }

  lemma DropsLawful(b: Pet, h: Habitat, next: real, speed: real, size: real)
    requires b.at.Some?
    ensures Drops(b, h, next, speed, size, Dropped(b, h, next, speed, size))
  {
    LandingExactly(h.surfaces, b.at.value, Some(next), size);
  }

  lemma FallenIs(b: Pet, h: Habitat, dt: real, size: real)
    requires b.at.Some?
    ensures Fallen(b, h, dt, size) == Dropped(b, h, b.at.value.y + Faster(b.velocity, dt) * dt, Faster(b.velocity, dt), size)
  {
  }

  lemma FallLawful(b: Pet, h: Habitat, dt: real, size: real)
    requires b.at.Some?
    ensures FallLaw(b, h, dt, size, Fallen(b, h, dt, size))
  {
    FallenIs(b, h, dt, size);
    DropsLawful(b, h, b.at.value.y + Faster(b.velocity, dt) * dt, Faster(b.velocity, dt), size);
  }

  /** With motion reduced a pet stands on what is nearest below it, at once. */
  ghost predicate SettleLaw(b: Pet, h: Habitat, size: real, b': Pet)
    requires b.at.Some?
  {
    && b' == b.(at := b'.at, hop := None, hopping := false, falling := false) && b'.at.Some? && b'.at.value.x == b.at.value.x
    && (if NoneBelow(h.surfaces, b.at.value, None, size) then b'.at == b.at
        else Nearest(h.surfaces, b.at.value, None, size, b'.at.value.y))
  }

  lemma SettleLawful(b: Pet, h: Habitat, size: real)
    requires b.at.Some?
    ensures SettleLaw(b, h, size, Settled(b, h, size))
  {
    LandingExactly(h.surfaces, b.at.value, None, size);
  }

  // ----------------------------------------------------------------- hopping

  /** The monitor holds the place it leaves and the whole pet at the place it goes to. */
  predicate Spans(r: Rect, x: real, to: Point, size: real) {
    && r.x <= x - size / 2.0 && x + size / 2.0 <= r.x + r.width
    && r.x <= to.x - size / 2.0 && to.x + size / 2.0 <= r.x + r.width
    && r.y + size <= to.y <= r.y + r.height
  }

  /** The point of the surface nearest to the pet, if it is within reach: not too far up, down or aside, not too near. */
  predicate InReach(s: Surface, p: Point, size: real, to: Point) {
    && s.right - s.left >= size && to.y == s.y
    && 4.0 <= Abs(s.y - p.y) <= size * 2.5 && Abs(to.x - p.x) <= size * 3.0
    && s.left + size / 2.0 <= to.x <= s.right - size / 2.0
    && (p.x < s.left + size / 2.0 ==> to.x == s.left + size / 2.0)
    && (p.x > s.right - size / 2.0 ==> to.x == s.right - size / 2.0)
    && (s.left + size / 2.0 <= p.x <= s.right - size / 2.0 ==> to.x == p.x)
  }

  /** The first monitor that spans the way. */
  ghost predicate FirstSpan(areas: seq<Area>, x: real, to: Point, size: real, k: nat) {
    && k < |areas| && Spans(areas[k].rect, x, to, size)
    && forall j :: 0 <= j < k ==> !Spans(areas[j].rect, x, to, size)
  }

  lemma {:induction false} CommonExactly(areas: seq<Area>, x: real, to: Point, size: real) returns (k: nat)
    ensures var found := Common(areas, x, to, size);
      && (found.Some? ==> FirstSpan(areas, x, to, size, k) && areas[k].rect == found.value)
      && (found.None? ==> forall j :: 0 <= j < |areas| ==> !Spans(areas[j].rect, x, to, size))
  {
    k := 0;
    if areas != [] && !Spans(areas[0].rect, x, to, size) {
      var rest := CommonExactly(areas[1..], x, to, size);
      assert forall j :: 1 <= j < |areas| ==> areas[j] == areas[1..][j - 1];
      k := rest + 1;
    }
  }

  lemma TargetExactly(s: Surface, areas: seq<Area>, p: Point, size: real, hypot: (real, real) -> real)
    requires size >= 0.0
    ensures var t := TargetOn(s, areas, p, size, hypot);
      && (t.Some? ==>
            && InReach(s, p, size, t.value.to) && t.value.distance == hypot(t.value.to.x - p.x, t.value.to.y - p.y)
            && exists k: nat :: FirstSpan(areas, p.x, t.value.to, size, k) && areas[k].rect == t.value.area)
      && (forall to, j :: InReach(s, p, size, to) && 0 <= j < |areas| && Spans(areas[j].rect, p.x, to, size) ==>
            t.Some? && t.value.to == to)
  {
    var to := Point(Clamp(p.x, s.left + size / 2.0, s.right - size / 2.0), s.y);
    var k := CommonExactly(areas, p.x, to, size);
    assert forall other: Point :: InReach(s, p, size, other) ==> other == to;
  }

  /** The target of this surface is the closest of all, and closer than those of the surfaces before it. */
  ghost predicate FirstClosest(h: Habitat, p: Point, size: real, hypot: (real, real) -> real, t: Target, k: nat) {
    && k < |h.surfaces| && TargetOn(h.surfaces[k], h.areas, p, size, hypot) == Some(t)
    && forall j :: 0 <= j < |h.surfaces| && TargetOn(h.surfaces[j], h.areas, p, size, hypot).Some? ==>
         var other := TargetOn(h.surfaces[j], h.areas, p, size, hypot).value;
         t.distance <= other.distance && (j < k ==> t.distance < other.distance)
  }

  lemma {:induction false} ClosestExactly(h: Habitat, p: Point, size: real, hypot: (real, real) -> real) returns (k: nat)
    ensures var t := Closest(h.surfaces, h.areas, p, size, hypot);
      && (t.Some? ==> FirstClosest(h, p, size, hypot, t.value, k))
      && (t.None? ==> forall j :: 0 <= j < |h.surfaces| ==> TargetOn(h.surfaces[j], h.areas, p, size, hypot).None?)
    decreases |h.surfaces|
  {
    k := 0;
    if h.surfaces != [] {
      var later := h.(surfaces := h.surfaces[1..]);
      var rest := ClosestExactly(later, p, size, hypot);
      assert forall j :: 1 <= j < |h.surfaces| ==> h.surfaces[j] == later.surfaces[j - 1];
      var own, best := TargetOn(h.surfaces[0], h.areas, p, size, hypot), Closest(later.surfaces, h.areas, p, size, hypot);
      k := if own.Some? && (best.None? || own.value.distance <= best.value.distance) then 0 else rest + 1;
    }
  }

  /** A hop to the target, as high as the pet may, but not above the monitor. */
  predicate Leaps(b: Pet, t: Target, size: real, b': Pet)
    requires b.at.Some?
  {
    var p, top := b.at.value, t.area.y + size;
    && b' == b.(hop := b'.hop, direction := b'.direction, hopping := true, moving := false, falling := false) && b'.hop.Some?
    && b'.direction == (if t.to.x < p.x then -1.0 else 1.0)
    && var hop := b'.hop.value;
    && hop.from == p && hop.to == t.to && hop.age == 0.0
    && 0.5 <= hop.duration <= 1.4
    && (0.5 < hop.duration < 1.4 ==> hop.duration * 220.0 == t.distance)
    && (hop.duration == 0.5 ==> t.distance <= 110.0) && (hop.duration == 1.4 ==> t.distance >= 308.0)
    && 0.0 <= hop.lift
    && (hop.lift > 0.0 ==> hop.lift <= size * 0.65 && top + hop.lift <= p.y && top + hop.lift <= t.to.y)
    && (hop.lift == size * 0.65 || hop.lift == 0.0 || hop.lift == p.y - top || hop.lift == t.to.y - top)
    && (hop.lift == 0.0 ==> size <= 0.0 || p.y <= top || t.to.y <= top)
  }

  /** A pet that may hop does so if anything is in reach, to the closest. */
  ghost predicate ApproachLaw(b: Pet, h: Habitat, size: real, hypot: (real, real) -> real, b': Pet) {
    if b.hop.Some? || b.dragging || b.paused || b.at.None? then b' == b
    else if forall j :: 0 <= j < |h.surfaces| ==> TargetOn(h.surfaces[j], h.areas, b.at.value, size, hypot).None? then b' == b
    else exists t: Target, k: nat :: FirstClosest(h, b.at.value, size, hypot, t, k) && Leaps(b, t, size, b')
  }

  lemma LeapLawful(b: Pet, h: Habitat, size: real, hypot: (real, real) -> real, t: Target)
    requires MayHop(b) && Closest(h.surfaces, h.areas, b.at.value, size, hypot) == Some(t)
    ensures Leaps(b, t, size, Approached(b, h, size, hypot))
  {
  }

  lemma ApproachLawful(b: Pet, h: Habitat, size: real, hypot: (real, real) -> real)
    ensures ApproachLaw(b, h, size, hypot, Approached(b, h, size, hypot))
  {
    if MayHop(b) {
      var k := ClosestExactly(h, b.at.value, size, hypot);
      var t := Closest(h.surfaces, h.areas, b.at.value, size, hypot);
      if t.Some? { LeapLawful(b, h, size, hypot, t.value); }
    }
  }

  /** The first monitor with room above the pet. */
  ghost predicate FirstRoom(areas: seq<Area>, p: Point, size: real, k: nat) {
    k < |areas| && Roomy(areas[k].rect, p, size) && forall j :: 0 <= j < k ==> !Roomy(areas[j].rect, p, size)
  }

  predicate Roomy(r: Rect, p: Point, size: real) {
    r.x <= p.x <= r.x + r.width && r.y + size <= p.y <= r.y + r.height
  }

  lemma {:induction false} AroundExactly(areas: seq<Area>, p: Point, size: real) returns (k: nat)
    ensures var found := Around(areas, p, size);
      && (found.Some? ==> FirstRoom(areas, p, size, k) && areas[k].rect == found.value)
      && (found.None? ==> forall j :: 0 <= j < |areas| ==> !Roomy(areas[j].rect, p, size))
  {
    k := 0;
    if areas != [] && !Roomy(areas[0].rect, p, size) {
      var rest := AroundExactly(areas[1..], p, size);
      assert forall j :: 1 <= j < |areas| ==> areas[j] == areas[1..][j - 1];
      k := rest + 1;
    }
  }

  /** A bounce on the spot, as high as there is room, where there is any. */
  ghost predicate BounceLaw(b: Pet, h: Habitat, size: real, b': Pet) {
    if b.hop.Some? || b.dragging || b.paused || b.at.None? then b' == b
    else
      var p := b.at.value;
      && (b' == b || exists k: nat :: FirstRoom(h.areas, p, size, k) && Bounces(b, h.areas[k].rect, size, b'))
      && (b' == b ==> forall k: nat :: FirstRoom(h.areas, p, size, k) ==> size <= 0.0 || p.y <= h.areas[k].rect.y + size)
  }

  predicate Bounces(b: Pet, r: Rect, size: real, b': Pet)
    requires b.at.Some?
  {
    && b'.hop.Some? && b' == b.(hop := b'.hop, hopping := true, moving := false, falling := false)
    && var p, hop := b.at.value, b'.hop.value;
    && hop.from == p && hop.to == p && hop.age == 0.0 && hop.duration == 0.65
    && 0.0 < hop.lift <= size * 0.6 && r.y + size + hop.lift <= p.y
    && (hop.lift == size * 0.6 || r.y + size + hop.lift == p.y)
  }

  lemma BounceLawful(b: Pet, h: Habitat, size: real)
    ensures BounceLaw(b, h, size, HoppedInPlace(b, h, size))
  {
    if MayHop(b) { var k := AroundExactly(h.areas, b.at.value, size); }
  }

  /** Now and then an idle pet tries to hop; the next try is set, whether or not it finds anywhere to go. */
  ghost predicate FidgetLaw(b: Pet, h: Habitat, size: real, mood: Mood, hypot: (real, real) -> real, b': Pet) {
    if mood.active || b.age < b.nextHop then b' == b
    else
      exists tried: Pet ::
        && ApproachLaw(b.(nextHop := b.age + (if mood.playful then 10.0 else 24.0)), h, size, hypot, tried)
        && (if mood.playful && tried.hop.None? then BounceLaw(tried, h, size, b') else b' == tried)
  }

  function Due(b: Pet, mood: Mood): Pet { b.(nextHop := b.age + (if mood.playful then 10.0 else 24.0)) }

  lemma TriedLawful(b: Pet, h: Habitat, size: real, mood: Mood, hypot: (real, real) -> real, tried: Pet, b': Pet)
    requires !mood.active && b.age >= b.nextHop && ApproachLaw(Due(b, mood), h, size, hypot, tried)
    requires if mood.playful && tried.hop.None? then BounceLaw(tried, h, size, b') else b' == tried
    ensures FidgetLaw(b, h, size, mood, hypot, b')
  {
  }

  lemma FidgetLawful(b: Pet, h: Habitat, size: real, mood: Mood, hypot: (real, real) -> real)
    ensures FidgetLaw(b, h, size, mood, hypot, Fidgeted(b, h, size, mood, hypot))
  {
    if !mood.active && b.age >= b.nextHop {
      var tried := Approached(Due(b, mood), h, size, hypot);
      ApproachLawful(Due(b, mood), h, size, hypot);
      BounceLawful(tried, h, size);
      TriedLawful(b, h, size, mood, hypot, tried, Fidgeted(b, h, size, mood, hypot));
    }
  }

  // ------------------------------------------------------------------ placing

  /** On the bottom edge of the first monitor, in its slot from the right, but not past the left. */
  predicate HomeLaw(b: Pet, h: Habitat, size: real, b': Pet) {
    if h.areas == [] then b' == b
    else
      var r, slot := h.areas[0].rect, b.seed as real;
      && b' == b.(at := b'.at, velocity := 0.0, falling := false, hop := None, hopping := false) && b'.at.Some?
      && b'.at.value.y == r.y + r.height && b'.at.value.x >= r.x + size / 2.0
      && b'.at.value.x + 24.0 + size * slot + size >= r.x + r.width
      && (b'.at.value.x == r.x + size / 2.0 || b'.at.value.x + 24.0 + size * slot + size == r.x + r.width)
  }

  lemma HomeLawful(b: Pet, h: Habitat, size: real)
    ensures HomeLaw(b, h, size, Homed(b, h, size))
  {
    assert size * (b.seed as real + 1.0) == size * b.seed as real + size;
  }

  /** The whole pet is on some monitor. */
  ghost predicate OnSome(h: Habitat, p: Point, size: real) {
    exists k :: 0 <= k < |h.areas| && var r := h.areas[k].rect;
      r.x <= p.x - size / 2.0 && p.x + size / 2.0 <= r.x + r.width && r.y + size <= p.y <= r.y + r.height + 1.0
  }

  ghost predicate RecoverLaw(b: Pet, h: Habitat, size: real, b': Pet) {
    if b.at.Some? && OnSome(h, b.at.value, size) then b' == b else HomeLaw(b, h, size, b')
  }

  lemma RecoverLawful(b: Pet, h: Habitat, size: real)
    ensures RecoverLaw(b, h, size, Recovered(b, h, size))
  {
    HomeLawful(b, h, size);
    if b.at.Some? && OnSome(h, b.at.value, size) {
      var k :| 0 <= k < |h.areas| && var r := h.areas[k].rect;
        r.x <= b.at.value.x - size / 2.0 && b.at.value.x + size / 2.0 <= r.x + r.width && r.y + size <= b.at.value.y <= r.y + r.height + 1.0;
      assert Fits(h.areas[k].rect, b.at.value, size);
    }
  }

  // ---------------------------------------------------------------- a tick

  /** Some surface still holds the place the hop goes to. */
  ghost predicate TargetStands(h: Habitat, hop: Hop, size: real) {
    exists k :: 0 <= k < |h.surfaces| && var s := h.surfaces[k];
      -2.0 < s.y - hop.to.y < 2.0 && s.left + size / 2.0 <= hop.to.x <= s.right - size / 2.0
  }

  lemma TargetStandsExactly(h: Habitat, hop: Hop, size: real)
    ensures TargetStands(h, hop, size) <==> HoldsTarget(h.surfaces, hop, size)
  {
    if HoldsTarget(h.surfaces, hop, size) {
      var k :| 0 <= k < |h.surfaces| && Supports(h.surfaces[k], hop.to, size);
      var s := h.surfaces[k];
      assert -2.0 < s.y - hop.to.y < 2.0;
    }
    if TargetStands(h, hop, size) {
      var k :| 0 <= k < |h.surfaces| && var s := h.surfaces[k];
        -2.0 < s.y - hop.to.y < 2.0 && s.left + size / 2.0 <= hop.to.x <= s.right - size / 2.0;
      assert Supports(h.surfaces[k], hop.to, size);
    }
  }

  /** Off its hop, a pet may hop again; if it does not, it walks on what is under its feet, or falls. */
  ghost predicate GroundLaw(b: Pet, h: Habitat, dt: real, size: real, mood: Mood, hypot: (real, real) -> real, b': Pet)
    requires b.at.Some? && b.hop.None?
  {
    exists tried: Pet :: FidgetLaw(b, h, size, mood, hypot, tried) &&
      if tried.hop.Some? then b' == tried
      else
        tried.at == b.at &&
        var support := Support(h.surfaces, b.at.value, size);
        (support.Some? ==> WalkLaw(tried, support.value, dt, size, mood, b')) && (support.None? ==> FallLaw(tried, h, dt, size, b'))
  }

  lemma GroundLawful(b: Pet, h: Habitat, dt: real, size: real, mood: Mood, platform: Platform)
    requires b.at.Some? && b.hop.None? && Faces(b)
    ensures GroundLaw(b, h, dt, size, mood, platform.hypot, Freed(b, h, dt, size, mood, platform))
  {
    var tried := Fidgeted(b, h, size, mood, platform.hypot);
    FidgetLawful(b, h, size, mood, platform.hypot);
    if tried.hop.None? {
      var support := Support(h.surfaces, b.at.value, size);
      SupportFound(h.surfaces, b.at.value, size);
      if support.Some? { WalkLawful(tried, support.value, dt, size, mood); } else { FallLawful(tried, h, dt, size); }
    }
  }

  /** Older, and off any hop. */
  function OnFoot(b: Pet, step: real): Pet {
    if b.hop.None? then b.(age := b.age + step) else b.(age := b.age + step, hop := None, hopping := false, velocity := 0.0)
  }

  /** A pet on the move gets older, follows a hop that still has its target, and otherwise is on its feet. */
  ghost predicate MoveLaw(b: Pet, h: Habitat, step: real, size: real, mood: Mood, platform: Platform, b': Pet)
    requires b.at.Some? && Timed(b)
  {
    if b.hop.Some? && TargetStands(h, b.hop.value, size) then b' == Hopped(b.(age := b.age + step), step, platform.arch)
    else GroundLaw(OnFoot(b, step), h, step, size, mood, platform.hypot, b')
  }

  lemma MovedOnFoot(b: Pet, h: Habitat, step: real, size: real, mood: Mood, platform: Platform)
    requires b.at.Some? && Timed(b) && (b.hop.Some? ==> !HoldsTarget(h.surfaces, b.hop.value, size))
    ensures Moved(b, h, step, size, mood, platform) == Freed(OnFoot(b, step), h, step, size, mood, platform)
  {
  }

  lemma MoveLawful(b: Pet, h: Habitat, step: real, size: real, mood: Mood, platform: Platform)
    requires b.at.Some? && Timed(b) && Faces(b)
    ensures MoveLaw(b, h, step, size, mood, platform, Moved(b, h, step, size, mood, platform))
  {
    if b.hop.Some? { TargetStandsExactly(h, b.hop.value, size); }
    if b.hop.None? || !HoldsTarget(h.surfaces, b.hop.value, size) {
      MovedOnFoot(b, h, step, size, mood, platform);
      GroundLawful(OnFoot(b, step), h, step, size, mood, platform);
    }
  }

  /** Brought back to a monitor first; then paused, settled, or moved by at most a twentieth of a second. */
  ghost predicate TickLaw(b: Pet, h: Habitat, dt: real, size: real, mood: Mood, platform: Platform, b': Pet)
    requires Timed(b)
  {
    if h.areas == [] || b.dragging || b.hidden then b' == b.(moving := false)
    else
      exists placed: Pet :: placed.at.Some? && Timed(placed) && RecoverLaw(b.(moving := false), h, size, placed)
        && (b.paused ==> b' == placed)
        && (!b.paused && mood.reduced ==> SettleLaw(placed, h, size, b'))
        && (!b.paused && !mood.reduced ==>
              exists step: real :: 0.0 <= step <= 0.05 && (0.0 <= dt <= 0.05 ==> step == dt) && (dt > 0.05 ==> step == 0.05) && (dt < 0.0 ==> step == 0.0)
                && MoveLaw(placed, h, step, size, mood, platform, b'))
  }

  lemma TickLawful(b: Pet, h: Habitat, dt: real, size: real, mood: Mood, platform: Platform)
    requires Timed(b) && Faces(b)
    ensures TickLaw(b, h, dt, size, mood, platform, Ticked(b, h, dt, size, mood, platform))
  {
    var still := b.(moving := false);
    if !Inert(still, h) {
      var placed := Recovered(still, h, size);
      RecoverLawful(still, h, size);
      if !placed.paused && mood.reduced { SettleLawful(placed, h, size); }
      if !placed.paused && !mood.reduced { MoveLawful(placed, h, Clamp(dt, 0.0, 0.05), size, mood, platform); }
    }
  }

  /** A pet always faces left or right. */
  lemma AlwaysFaces(b: Pet, h: Habitat, dt: real, size: real, mood: Mood, platform: Platform, seed: nat)
    ensures Faces(NewPet(seed))
    ensures Faces(b) ==> Faces(Homed(b, h, size)) && Faces(DragStopped(b))
    ensures Faces(b) ==> Faces(Approached(b, h, size, platform.hypot)) && Faces(HoppedInPlace(b, h, size))
    ensures Faces(b) && Timed(b) ==> Faces(Ticked(b, h, dt, size, mood, platform))
  {
  }

  /** Pets in even slots face right, those in odd ones left, and no two begin at the same age or hop at the same time. */
  lemma NewPetLawful(seed: nat)
    ensures var b := NewPet(seed);
      && b.at.None? && b.hop.None? && b.seed == seed && b.velocity == 0.0
      && !b.moving && !b.falling && !b.hopping && !b.dragging && !b.paused && !b.hidden
      && (b.direction == 1.0 <==> seed % 2 == 0) && Faces(b)
      && b.age == 1.7 * seed as real && b.nextHop == 12.0 + 3.0 * seed as real
  {
  }

  // ------------------------------------------------------------ frames, pointers

  /** Stay, hop to the nearest place, hop there or on the spot, or go home. */
  ghost predicate ActionLaw(b: Pet, h: Habitat, size: real, action: MotionLives.Action, hypot: (real, real) -> real, b': Pet) {
    match action
    case Stay => b' == b
    case Approach => ApproachLaw(b, h, size, hypot, b')
    case Leap =>
      exists tried: Pet :: ApproachLaw(b, h, size, hypot, tried) && if tried.hopping then b' == tried else BounceLaw(tried, h, size, b')
    case GoHome => HomeLaw(b, h, size, b')
  }

  /** A summons first; then the action, or, where pets may not move about, the end of any hop. */
  ghost predicate PrepareLaw(b: Pet, e: MotionLives.Event, h: Habitat, hypot: (real, real) -> real, b': Pet)
    requires e.Frame?
  {
    exists summoned: Pet ::
      && (if e.summoned then HomeLaw(b, h, e.setting.size, summoned) else summoned == b)
      && (if !e.blocked then ActionLaw(summoned, h, e.setting.size, e.action, hypot, b')
          else if summoned.hopping then b' == summoned.(hop := None, hopping := false, velocity := 0.0)
          else b' == summoned)
  }

  lemma ActionLawful(b: Pet, h: Habitat, size: real, action: MotionLives.Action, hypot: (real, real) -> real)
    ensures ActionLaw(b, h, size, action, hypot, MotionLives.Acted(b, h, size, action, hypot))
  {
    ApproachLawful(b, h, size, hypot);
    BounceLawful(Approached(b, h, size, hypot), h, size);
    HomeLawful(b, h, size);
  }

  lemma PrepareLawful(b: Pet, e: MotionLives.Event, h: Habitat, hypot: (real, real) -> real)
    requires e.Frame?
    ensures PrepareLaw(b, e, h, hypot, MotionLives.Prepared(b, e, h, hypot))
  {
    HomeLawful(b, h, e.setting.size);
    var summoned := if e.summoned then Homed(b, h, e.setting.size) else b;
    ActionLawful(summoned, h, e.setting.size, e.action, hypot);
  }

  /** What each event of a life does; a dragged pet goes where the pointer is, and stops hopping when it is grabbed. */
  ghost predicate LifeLaw(b: Pet, e: MotionLives.Event, platform: Platform, b': Pet) {
    match e
    case Frame(setting, dt, mood, _, _, _) =>
      if b.hidden then b' == b
      else
        exists ready: Pet :: Timed(ready) && PrepareLaw(b, e, MotionLives.HabitatOf(setting), platform.hypot, ready)
          && TickLaw(ready, MotionLives.HabitatOf(setting), dt, setting.size, mood, platform, b')
    case Grab => b' == b.(hop := None, hopping := false, velocity := 0.0, dragging := true)
    case Drag(to) => b' == b.(at := Some(to), dragging := true)
    case Drop(to) => b' == b.(at := Some(to), dragging := false)
    case TogglePause => b' == b.(paused := !b.paused)
    case SendHome(setting) => HomeLaw(b, MotionLives.HabitatOf(setting), setting.size, b')
    case Hide => b' == b.(hidden := true)
  }

  lemma LifeLawful(b: Pet, e: MotionLives.Event, platform: Platform)
    requires Steady(b) && Faces(b)
    ensures var b' := MotionLives.Step(b, e, platform); b'.Some? && LifeLaw(b, e, platform, b'.value) && Faces(b'.value)
  {
    match e
    case Frame(setting, dt, mood, _, _, _) =>
      if !b.hidden {
        var h := MotionLives.HabitatOf(setting);
        var ready := MotionLives.Prepared(b, e, h, platform.hypot);
        PrepareLawful(b, e, h, platform.hypot);
        PreparedFaces(b, e, h, platform.hypot);
        TickLawful(ready, h, dt, setting.size, mood, platform);
      }
    case SendHome(setting) => HomeLawful(b, MotionLives.HabitatOf(setting), setting.size);
    case _ =>
  }

  lemma PreparedFaces(b: Pet, e: MotionLives.Event, h: Habitat, hypot: (real, real) -> real)
    requires e.Frame? && Faces(b)
    ensures Faces(MotionLives.Prepared(b, e, h, hypot))
  {
  }
}
