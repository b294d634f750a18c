/**
 When all that is left of a hop stays on the monitor: exactly when it is
 contained, over every sequence of frames and however the hop arches.
 */
module RestOfHop {
  import opened Options
  import opened Habitats
  import opened Motion
  import opened MotionSafety
  import opened MotionLives

  /** Each of these frames, of a busy pet whose windows stand still, ends on the monitor. */
  ghost predicate StaysOn(b: Pet, h: Habitat, dts: seq<real>, size: real, platform: Platform, area: Rect)
    decreases |dts|
  {
    dts == [] ||
    (Timed(b) && var b' := Ticked(b, h, dts[0], size, CALM, platform);
                 MotionSafety.Inside(b', area, size) && StaysOn(b', h, dts[1..], size, platform, area))
  }

  /** A pet free on its monitor in the middle of a hop that still has its target. */
  ghost predicate Airborne(b: Pet, h: Habitat, size: real, area: Rect) {
    && OneMonitor(h, area) && Ample(area, size) && Steady(b) && MotionSafety.Inside(b, area, size)
    && b.hop.Some? && HoldsTarget(h.surfaces, b.hop.value, size)
    && !b.dragging && !b.hidden && !b.paused
  }

  // ------------------------------------------------------- contained, it stays

  lemma {:induction false} SoundStaysOn(b: Pet, h: Habitat, dts: seq<real>, size: real, platform: Platform, area: Rect)
    requires OneMonitor(h, area) && Ample(area, size) && Arched(platform.arch)
    requires Sound(b, area, size) && !b.dragging && !b.hidden
    ensures StaysOn(b, h, dts, size, platform, area)
    decreases |dts|
  {
    if dts != [] {
      TickEndsInside(b, h, dts[0], size, CALM, platform, area);
      SoundStaysOn(Ticked(b, h, dts[0], size, CALM, platform), h, dts[1..], size, platform, area);
    }
  }

  // ------------------------------------------------- not contained, it may leave

  /** The arch of a hop that never rises, and of one that is up all the way. */
  function Flat(): real -> real { (t: real) => 0.0 }

  function Plateau(): real -> real { (t: real) => if t < 1.0 then 1.0 else 0.0 }

  lemma BothAreArches()
    ensures Arched(Flat()) && Arched(Plateau())
  {
  }

  /** Frames of a twentieth of a second, and a last one, bring a hop to any later age, unless it leaves before. */
  lemma {:induction false} LeavesBy(b: Pet, h: Habitat, goal: real, size: real, platform: Platform, area: Rect) returns (dts: seq<real>)
    requires Airborne(b, h, size, area) && b.hop.value.age <= goal <= b.hop.value.duration
    requires !Fits(area, PointAt(b.hop.value, goal, platform.arch), size)
    ensures !StaysOn(b, h, dts, size, platform, area)
    decreases ((goal - b.hop.value.age) * 20.0).Floor
  {
    var dt := if goal - b.hop.value.age <= 0.05 then goal - b.hop.value.age else 0.05;
    var b' := Ticked(b, h, dt, size, CALM, platform);
    FollowedTick(b, h, dt, size, CALM, platform, area);
    if dt < 0.05 || !MotionSafety.Inside(b', area, size) || goal == b.hop.value.age + dt {
      dts := [dt];
    } else {
      StillAirborne(b, h, size, platform, area);
      var rest := LeavesBy(b', h, goal, size, platform, area);
      dts := [dt] + rest;
      assert dts[1..] == rest;
    }
  }

  lemma StillAirborne(b: Pet, h: Habitat, size: real, platform: Platform, area: Rect)
    requires Airborne(b, h, size, area) && b.hop.value.age + 0.05 < b.hop.value.duration
    requires MotionSafety.Inside(Ticked(b, h, 0.05, size, CALM, platform), area, size)
    ensures var b' := Ticked(b, h, 0.05, size, CALM, platform);
            Airborne(b', h, size, area) && b'.hop.value == b.hop.value.(age := b.hop.value.age + 0.05)
  {
    FitsOnly(b, h, size, area);
    HeldHopTicks(b, h, 0.05, size, CALM, platform);
    ProgressEnds(b.hop.value.(age := b.hop.value.age + 0.05));
  }

  /** A hop that flies flat is drawn where its ground track is. */
  lemma FlatPoint(hop: Hop, age: real)
    requires hop.duration > 0.0
    ensures PointAt(hop, age, Flat()) == Reached(hop.(age := age))
  {
  }

  lemma PlateauPoint(hop: Hop, age: real)
    requires hop.duration > 0.0 && age < hop.duration
    ensures PointAt(hop, age, Plateau()).y == Reached(hop.(age := age)).y - hop.lift
  {
    ProgressEnds(hop.(age := age));
    LiftedBy(hop.(age := age), Ease(Progress(hop.(age := age))));
  }

  lemma ReachesTarget(hop: Hop)
    requires hop.duration > 0.0
    ensures Reached(hop.(age := hop.duration)) == hop.to
  {
    ProgressEnds(hop.(age := hop.duration));
    ArcEnds(hop.(age := hop.duration));
    assert Ease(1.0) == 1.0;
  }

  // -------------------------------------------------- how near the end of a hop

  lemma EaseNearOne(w: real)
    requires 0.0 <= w <= 1.0
    ensures 1.0 - Ease(1.0 - w) <= 3.0 * w && Ease(1.0 - w) <= 1.0
  {
    EaseWithinOne(1.0 - w);
    SquareIsLess(w);
    var t := 1.0 - w;
    var ww := w * w;
    Scaled(0.0, ww, w);
    assert t * t == 1.0 - 2.0 * w + ww;
    assert t * t * (3.0 - 2.0 * t) == (1.0 - 2.0 * w + ww) * (1.0 + 2.0 * w);
    assert (1.0 - 2.0 * w + ww) * (1.0 + 2.0 * w) == 1.0 - 3.0 * ww + 2.0 * (ww * w);
  }

  lemma ProgressAt(hop: Hop, t: real)
    requires hop.duration > 0.0 && 0.0 <= t <= 1.0
    ensures Progress(hop.(age := t * hop.duration)) == t
  {
    assert t * hop.duration / hop.duration == t;
  }

  lemma RisingTrack(hop: Hop)
    requires 0.0 <= hop.age && hop.duration > 0.0 && hop.from.y <= hop.to.y
    ensures Reached(hop).y <= hop.to.y
  {
    var e := Ease(Progress(hop));
    ProgressWithinOne(hop);
    EaseWithinOne(Progress(hop));
    TrackHeight(hop, e);
    var rise, rest := hop.to.y - hop.from.y, 1.0 - e;
    Scaled(0.0, rest, rise);
    assert (hop.from.y - hop.to.y) * rest == -(rest * rise);
  }

  /** Where the track is a small part `w` before its end, when it comes down. */
  lemma FallingTrack(hop: Hop, w: real)
    requires hop.duration > 0.0 && 0.0 <= w <= 1.0 && hop.from.y > hop.to.y
    ensures Reached(hop.(age := (1.0 - w) * hop.duration)).y <= hop.to.y + 3.0 * w * (hop.from.y - hop.to.y)
  {
    ProgressAt(hop, 1.0 - w);
    EaseNearOne(w);
    TrackNear(hop.(age := (1.0 - w) * hop.duration), 1.0 - w, w);
  }

  lemma TrackNear(hop: Hop, t: real, w: real)
    requires hop.duration > 0.0 && Progress(hop) == t && 1.0 - Ease(t) <= 3.0 * w && hop.from.y > hop.to.y
    ensures Reached(hop).y <= hop.to.y + 3.0 * w * (hop.from.y - hop.to.y)
  {
    ArcNear(hop, Ease(t), w, Reached(hop));
  }

  lemma ArcNear(hop: Hop, e: real, w: real, p: Point)
    requires 1.0 - e <= 3.0 * w && hop.from.y > hop.to.y && p == OnArc(hop, e, 0.0)
    ensures p.y <= hop.to.y + 3.0 * w * (hop.from.y - hop.to.y)
  {
    var drop := hop.from.y - hop.to.y;
    TrackHeight(hop, e);
    Scaled(1.0 - e, 3.0 * w, drop);
    assert drop * (1.0 - e) == (1.0 - e) * drop;
  }

  /** The height of the ground track comes as near to the target's as one likes before the end. */
  lemma NearTheEnd(hop: Hop, gap: real) returns (goal: real)
    requires 0.0 <= hop.age < hop.duration && gap > 0.0
    ensures hop.age <= goal < hop.duration && Reached(hop.(age := goal)).y < hop.to.y + gap
  {
    if hop.from.y <= hop.to.y {
      goal := hop.age;
      RisingTrack(hop);
    } else {
      var w := Tail(hop, gap);
      goal := (1.0 - w) * hop.duration;
      LaterAge(hop, 1.0 - w);
      FallingTrack(hop, w);
    }
  }

  lemma Tail(hop: Hop, gap: real) returns (w: real)
    requires 0.0 <= hop.age < hop.duration && gap > 0.0 && hop.from.y > hop.to.y
    ensures 0.0 < w <= 1.0 && Progress(hop) <= 1.0 - w && 3.0 * w * (hop.from.y - hop.to.y) < gap
  {
    var drop := hop.from.y - hop.to.y;
    w := Min(1.0 - Progress(hop), gap / (6.0 * drop));
    SmallShare(gap, drop, w);
    ProgressEnds(hop);
    ProgressWithinOne(hop);
  }

  lemma TrackHeight(hop: Hop, e: real)
    ensures OnArc(hop, e, 0.0).y == hop.to.y + (hop.from.y - hop.to.y) * (1.0 - e)
  {
    assert (hop.to.y - hop.from.y) * e == -((hop.from.y - hop.to.y) * e);
  }

  lemma SmallShare(gap: real, drop: real, w: real)
    requires gap > 0.0 && drop > 0.0 && w <= gap / (6.0 * drop)
    ensures gap / (6.0 * drop) > 0.0 && 3.0 * w * drop < gap
  {
    var share := gap / (6.0 * drop);
    assert share * (6.0 * drop) == gap;
    Scaled(w, share, drop);
    assert share * drop == gap / 6.0;
  }

  lemma LaterAge(hop: Hop, t: real)
    requires 0.0 <= hop.age < hop.duration && Progress(hop) <= t < 1.0
    ensures hop.age <= t * hop.duration < hop.duration
  {
    ProgressEnds(hop);
    Scaled(hop.age / hop.duration, t, hop.duration);
    assert hop.age / hop.duration * hop.duration == hop.age;
    Scaled(0.0, 1.0 - t, hop.duration);
    assert (1.0 - t) * hop.duration == hop.duration - t * hop.duration;
    assert (1.0 - t) * hop.duration > 0.0;
  }

  // ------------------------------------------------------------- main result

  /** However the hop arches, and whatever the frames, the pet stays. */
  ghost predicate StaysHowever(b: Pet, h: Habitat, dts: seq<real>, arch: real -> real, size: real, hypot: (real, real) -> real, area: Rect) {
    Arched(arch) ==> StaysOn(b, h, dts, size, Platform(hypot, arch), area)
  }

  lemma UncontainedLeaves(b: Pet, h: Habitat, size: real, hypot: (real, real) -> real, area: Rect) returns (dts: seq<real>, arch: real -> real)
    requires Airborne(b, h, size, area) && !Contained(b.hop.value, area, size)
    ensures !StaysHowever(b, h, dts, arch, size, hypot, area)
  {
    var hop := b.hop.value;
    var top := area.y + size;
    BothAreArches();
    ProgressEnds(hop);
    var goal: real;
    if !Fits(area, Reached(hop), size) {
      arch, goal := Flat(), hop.age;
      FlatPoint(hop, goal);
    } else if !Fits(area, hop.to, size) {
      arch, goal := Flat(), hop.duration;
      FlatPoint(hop, goal);
      ReachesTarget(hop);
    } else if hop.lift > Reached(hop).y - top {
      arch, goal := Plateau(), hop.age;
      PlateauPoint(hop, goal);
    } else {
      arch := Plateau();
      goal := NearTheEnd(hop, hop.lift - (hop.to.y - top));
      PlateauPoint(hop, goal);
    }
    dts := LeavesBy(b, h, goal, size, Platform(hypot, arch), area);
  }

  /**
   All the frames left of a hop end on the monitor, for every sequence of frames
   and however the hop arches, if and only if the hop is contained.
   */
  lemma RestOfHopExactly(b: Pet, h: Habitat, size: real, hypot: (real, real) -> real, area: Rect)
    requires Airborne(b, h, size, area)
    ensures (forall dts, arch :: StaysHowever(b, h, dts, arch, size, hypot, area)) <==> Contained(b.hop.value, area, size)
  {
    if Contained(b.hop.value, area, size) {
      ArcInsideExactly(b.hop.value, area, size);
      forall dts, arch ensures StaysHowever(b, h, dts, arch, size, hypot, area) {
        if Arched(arch) { SoundStaysOn(b, h, dts, size, Platform(hypot, arch), area); }
      }
    } else {
      var dts, arch := UncontainedLeaves(b, h, size, hypot, area);
    }
  }

  /**
   A monitor that shrinks behind a hop: where the hop began is no longer on it,
   and what is left of the hop is contained.
   */
  lemma FlownPartIsNoMatter()
    ensures var narrow := Rect(50.0, 0.0, 950.0, 700.0);
            var hop := Hop(Point(30.0, 500.0), Point(120.0, 400.0), 0.5, 1.0, 31.2);
            !Fits(narrow, hop.from, 48.0) && Contained(hop, narrow, 48.0)
  {
    var hop := Hop(Point(30.0, 500.0), Point(120.0, 400.0), 0.5, 1.0, 31.2);
    assert Reached(hop) == Point(75.0, 450.0);
  }
}
