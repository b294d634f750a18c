/** Which surfaces a habitat has, point by point along the edges of the windows. */
module HabitatLaws {
  import opened Options
  import opened Habitats
  import opened ExposedEdges

  predicate Real(r: Rect) { r.width > 0.0 && r.height > 0.0 }

  predicate Works(a: Area) { Real(a.rect) && a.scale > 0.0 }

  /** A window further in front reaches across the edge, or ends within a unit above it. */
  predicate Reaches(windows: seq<Rect>, c: int, i: int)
    requires 0 <= i < |windows|
  {
    0 <= c < i && Real(windows[c]) && windows[c].y <= windows[i].y <= windows[c].y + windows[c].height + 1.0
  }

  /** The point of the top edge of window `i` is on the monitor, and no window in front covers it. */
  ghost predicate Bare(windows: seq<Rect>, i: int, area: Rect, x: real)
    requires 0 <= i < |windows|
  {
    && windows[i].x < x < windows[i].x + windows[i].width && area.x < x < area.x + area.width
    && forall c :: Reaches(windows, c, i) ==> !(windows[c].x <= x <= windows[c].x + windows[c].width)
  }

  /** A stretch of bare points at least 32 wide that cannot be made longer, of an edge neither under the bar nor off the monitor. */
  ghost predicate Piece(s: Surface, windows: seq<Rect>, i: int, area: Rect)
    requires 0 <= i < |windows|
  {
    && Real(windows[i]) && s.y == windows[i].y && area.y + 40.0 <= s.y <= area.y + area.height
    && s.right - s.left >= 32.0
    && (forall x :: s.left < x < s.right ==> Bare(windows, i, area, x))
    && !Bare(windows, i, area, s.left) && !Bare(windows, i, area, s.right)
  }

  lemma CoversExactly(windows: seq<Rect>, i: nat, c: Rect)
    requires i < |windows|
    ensures c in Covers(windows[i], windows[..i]) <==> exists k :: Reaches(windows, k, i) && windows[k] == c
  {
    CoversMembers(windows[i], windows[..i], c);
    if c in windows[..i] && InFront(windows[i], c) {
      var k :| 0 <= k < i && windows[..i][k] == c;
      assert Reaches(windows, k, i);
    }
    if k :| Reaches(windows, k, i) && windows[k] == c { assert windows[..i][k] == c; }
  }

  lemma BareExactly(windows: seq<Rect>, i: nat, area: Rect, x: real)
    requires i < |windows|
    ensures Bare(windows, i, area, x) <==> Exposed(x, Clipped(windows[i], area), Covers(windows[i], windows[..i]))
  {
    var covers := Covers(windows[i], windows[..i]);
    if Hidden(x, covers) {
      var c :| c in covers && Blocks(c, x);
      CoversExactly(windows, i, c);
    }
    forall k | Reaches(windows, k, i) ensures windows[k] in covers { CoversExactly(windows, i, windows[k]); }
  }

  lemma PieceExactly(s: Surface, windows: seq<Rect>, i: nat, area: Rect)
    requires i < |windows|
    ensures Stands(s, windows, i, area) <==> Piece(s, windows, i, area)
  {
    forall x ensures Bare(windows, i, area, x) <==> Exposed(x, Clipped(windows[i], area), Covers(windows[i], windows[..i])) {
      BareExactly(windows, i, area, x);
    }
  }

  lemma {:induction false} UsableExactly(areas: seq<Area>, a: Area)
    ensures a in Usable(areas) <==> a in areas && Works(a)
  {
    if areas != [] {
      UsableExactly(areas[..|areas| - 1], a);
      assert areas == areas[..|areas| - 1] + [areas[|areas| - 1]];
    }
  }

  /** The floor of a monitor. */
  predicate Floor(s: Surface, area: Rect) { s == Surface(area.x, area.x + area.width, area.y + area.height) }

  /** The surfaces are the pieces of window edges on working monitors, and their floors, and nothing else. */
  lemma HabitatExactly(areas: seq<Area>, windows: seq<Rect>, s: Surface)
    ensures s in NewHabitat(areas, windows).surfaces <==>
      exists a :: a in areas && Works(a) && (Floor(s, a.rect) || exists i :: 0 <= i < |windows| && Piece(s, windows, i, a.rect))
  {
    var usable := Usable(areas);
    SurfacesAreExact(areas, windows, s);
    forall a ensures a in usable <==> a in areas && Works(a) { UsableExactly(areas, a); }
    if i, j :| 0 <= i < |windows| && 0 <= j < |usable| && Stands(s, windows, i, usable[j].rect) {
      PieceExactly(s, windows, i, usable[j].rect);
      assert usable[j] in usable;
    } else if j :| 0 <= j < |usable| && s == Surface(usable[j].rect.x, usable[j].rect.Right(), usable[j].rect.Bottom()) {
      assert usable[j] in usable && Floor(s, usable[j].rect);
    }
    if a :| a in areas && Works(a) && (Floor(s, a.rect) || exists i :: 0 <= i < |windows| && Piece(s, windows, i, a.rect)) {
      var j :| 0 <= j < |usable| && usable[j] == a;
      if !Floor(s, a.rect) {
        var i :| 0 <= i < |windows| && Piece(s, windows, i, a.rect);
        PieceExactly(s, windows, i, usable[j].rect);
      }
    }
  }

  /** The monitors found are those at these places: all that work, in the order given. */
  ghost predicate Chosen(at: seq<nat>, found: seq<Area>, areas: seq<Area>) {
    && |at| == |found|
    && (forall i :: 0 <= i < |at| ==> at[i] < |areas| && found[i] == areas[at[i]])
    && (forall i, j :: 0 <= i < j < |at| ==> at[i] < at[j])
    && (forall k :: 0 <= k < |areas| && Works(areas[k]) ==> k in at)
  }

  lemma ChosenSkip(at: seq<nat>, found: seq<Area>, areas: seq<Area>, a: Area)
    requires Chosen(at, found, areas) && !Works(a)
    ensures Chosen(at, found, areas + [a])
  {
  }

  lemma ChosenAdd(at: seq<nat>, found: seq<Area>, areas: seq<Area>, a: Area)
    requires Chosen(at, found, areas)
    ensures Chosen(at + [|areas|], found + [a], areas + [a])
  {
    var more, all := at + [|areas|], areas + [a];
    assert all[|areas|] == a && more[|at|] == |areas|;
    forall k | 0 <= k < |all| && Works(all[k]) ensures k in more {
      if k < |areas| { assert Works(areas[k]) && k in at; }
    }
  }

  /** The monitors of a habitat, first to last: the working ones, in the order given. */
  lemma {:induction false} MonitorsInOrder(areas: seq<Area>) returns (at: seq<nat>)
    ensures Chosen(at, Usable(areas), areas)
  {
    if areas == [] {
      at := [];
    } else {
      var init, last := areas[..|areas| - 1], areas[|areas| - 1];
      at := MonitorsInOrder(init);
      assert areas == init + [last];
      if Works(last) {
        ChosenAdd(at, Usable(init), init, last);
        at := at + [|init|];
      } else {
        ChosenSkip(at, Usable(init), init, last);
        assert Usable(areas) == Usable(init);
      }
    }
  }
}
