/**
 The surfaces a habitat offers are exactly the exposed pieces of window edges:
 the maximal intervals no window in front reaches, at least 32 wide.
 */
module ExposedEdges {
  import opened Options
  import opened Habitats

  predicate Inside(p: real, s: Span) { s.left < p < s.right }

  predicate Blocks(cover: Rect, p: real) { cover.x <= p <= cover.Right() }

  ghost predicate Hidden(p: real, covers: seq<Rect>) {
    exists c :: c in covers && Blocks(c, p)
  }

  ghost predicate Exposed(p: real, edge: Span, covers: seq<Rect>) {
    Inside(p, edge) && !Hidden(p, covers)
  }

  ghost predicate Clear(s: Span, edge: Span, covers: seq<Rect>) {
    forall p :: Inside(p, s) ==> Exposed(p, edge, covers)
  }

  /** A non-empty open interval of exposed points that cannot be extended. */
  ghost predicate Maximal(s: Span, edge: Span, covers: seq<Rect>) {
    s.left < s.right && Clear(s, edge, covers) && !Exposed(s.left, edge, covers) && !Exposed(s.right, edge, covers)
  }

  predicate Within(inner: Span, outer: Span) {
    outer.left <= inner.left && inner.right <= outer.right
  }

  ghost predicate Solid(covers: seq<Rect>) {
    forall c :: c in covers ==> c.Valid()
  }

  // ------------------------------------------------------------- membership

  lemma {:induction false} KeepMembers(spans: seq<Span>, least: real, s: Span)
    ensures s in Keep(spans, least) <==> s in spans && Wide(s, least)
  {
    if spans != [] {
      KeepMembers(spans[..|spans| - 1], least, s);
      assert spans == spans[..|spans| - 1] + [spans[|spans| - 1]];
    }
  }

  lemma {:induction false} TrimMembers(spans: seq<Span>, cover: Rect, t: Span)
    ensures t in Trim(spans, cover) <==> Wide(t, NARROWEST) && exists s :: s in spans && t in Cut(s, cover)
  {
    if spans != [] {
      var last := spans[|spans| - 1];
      TrimMembers(spans[..|spans| - 1], cover, t);
      KeepMembers(Cut(last, cover), NARROWEST, t);
      assert spans == spans[..|spans| - 1] + [last];
    }
  }

  lemma {:induction false} CoversMembers(window: Rect, front: seq<Rect>, c: Rect)
    ensures c in Covers(window, front) <==> c in front && InFront(window, c)
  {
    if front != [] {
      CoversMembers(window, front[..|front| - 1], c);
      assert front == front[..|front| - 1] + [front[|front| - 1]];
    }
  }

  // ------------------------------------------------------------ one more cover

  lemma HiddenByOneMore(p: real, covers: seq<Rect>, cover: Rect)
    ensures Hidden(p, covers + [cover]) <==> Hidden(p, covers) || Blocks(cover, p)
  {
    if Blocks(cover, p) { assert cover in covers + [cover]; }
    if Hidden(p, covers) {
      var c :| c in covers && Blocks(c, p);
      assert c in covers + [cover];
    }
  }

  lemma CutStaysMaximal(s: Span, edge: Span, covers: seq<Rect>, cover: Rect, t: Span)
    requires Maximal(s, edge, covers) && cover.Valid()
    requires t in Cut(s, cover) && t.left < t.right
    ensures Maximal(t, edge, covers + [cover])
  {
    forall p | Inside(p, t) ensures Exposed(p, edge, covers + [cover]) {
      assert Inside(p, s);
      HiddenByOneMore(p, covers, cover);
    }
    HiddenByOneMore(t.left, covers, cover);
    HiddenByOneMore(t.right, covers, cover);
  }

  lemma ClearOfCover(w: Span, edge: Span, covers: seq<Rect>, cover: Rect)
    requires w.left < w.right && cover.Valid() && Clear(w, edge, covers + [cover])
    ensures w.right <= cover.x || cover.Right() <= w.left
    ensures Clear(w, edge, covers)
  {
    if cover.x < w.right && w.left < cover.Right() {
      var p := (Max(w.left, cover.x) + Min(w.right, cover.Right())) / 2.0;
      assert Inside(p, w) && Blocks(cover, p);
      HiddenByOneMore(p, covers, cover);
      assert false;
    }
    forall p | Inside(p, w) ensures Exposed(p, edge, covers) {
      assert Exposed(p, edge, covers + [cover]);
      HiddenByOneMore(p, covers, cover);
    }
  }

  lemma CutKeepsClear(s: Span, cover: Rect, w: Span) returns (t: Span)
    requires Within(w, s) && w.left < w.right
    requires w.right <= cover.x || cover.Right() <= w.left
    ensures t in Cut(s, cover) && Within(w, t)
  {
    if cover.Right() <= s.left || cover.x >= s.right { t := s; }
    else if w.right <= cover.x { t := Span(s.left, Min(cover.x, s.right)); }
    else { t := Span(Max(cover.Right(), s.left), s.right); }
  }

  // --------------------------------------------------------------- exactness

  ghost predicate AllMaximal(spans: seq<Span>, edge: Span, covers: seq<Rect>) {
    forall s :: s in spans ==> Maximal(s, edge, covers)
  }

  lemma EdgeIsClear(edge: Span)
    requires edge.left < edge.right
    ensures AllMaximal([edge], edge, [])
  {
    forall s | s in [edge] ensures Maximal(s, edge, []) {}
  }

  lemma {:induction false} PiecesAreMaximal(edge: Span, covers: seq<Rect>)
    requires edge.left < edge.right && Solid(covers)
    ensures AllMaximal(TrimAll([edge], covers), edge, covers)
  {
    if covers == [] {
      EdgeIsClear(edge);
    } else {
      var rest, cover := covers[..|covers| - 1], covers[|covers| - 1];
      assert covers == rest + [cover];
      PiecesAreMaximal(edge, rest);
      forall t | t in TrimAll([edge], covers) ensures Maximal(t, edge, covers) {
        TrimMembers(TrimAll([edge], rest), cover, t);
        var s :| s in TrimAll([edge], rest) && t in Cut(s, cover);
        CutStaysMaximal(s, edge, rest, cover, t);
      }
    }
  }

  lemma ClearWithin(w: Span, edge: Span, covers: seq<Rect>)
    requires w.left < w.right && Clear(w, edge, covers)
    ensures Within(w, edge)
  {
    var p := (w.left + Min(w.right, edge.left)) / 2.0;
    var q := (w.right + Max(w.left, edge.right)) / 2.0;
    assert Inside(p, w) ==> Inside(p, edge);
    assert Inside(q, w) ==> Inside(q, edge);
  }

  lemma {:induction false} WideIsFound(edge: Span, covers: seq<Rect>, w: Span) returns (s: Span)
    requires Solid(covers) && Wide(w, NARROWEST) && Clear(w, edge, covers)
    ensures s in TrimAll([edge], covers) && Within(w, s)
  {
    if covers == [] {
      s := edge;
      ClearWithin(w, edge, covers);
    } else {
      var rest, cover := covers[..|covers| - 1], covers[|covers| - 1];
      assert covers == rest + [cover];
      ClearOfCover(w, edge, rest, cover);
      var whole := WideIsFound(edge, rest, w);
      s := CutKeepsClear(whole, cover, w);
      TrimMembers(TrimAll([edge], rest), cover, s);
    }
  }

  lemma MaximalsMeetOnlyIfEqual(s: Span, t: Span, edge: Span, covers: seq<Rect>)
    requires Maximal(s, edge, covers) && Maximal(t, edge, covers) && Within(s, t)
    ensures s == t
  {
    if t.left < s.left { assert Inside(s.left, t); }
    if s.right < t.right { assert Inside(s.right, t); }
  }

  /** The spans kept for one edge are the wide maximal exposed intervals. */
  lemma SpansAreExact(edge: Span, covers: seq<Rect>, s: Span)
    requires Solid(covers)
    ensures s in Keep(TrimAll([edge], covers), NARROWEST) <==> Maximal(s, edge, covers) && Wide(s, NARROWEST)
  {
    KeepMembers(TrimAll([edge], covers), NARROWEST, s);
    if Maximal(s, edge, covers) && Wide(s, NARROWEST) {
      var t := WideIsFound(edge, covers, s);
      ClearWithin(s, edge, covers);
      PiecesAreMaximal(edge, covers);
      MaximalsMeetOnlyIfEqual(s, t, edge, covers);
    }
    if s in TrimAll([edge], covers) && Wide(s, NARROWEST) {
      TrimShrinks(edge, covers, s);
      PiecesAreMaximal(edge, covers);
    }
  }

  lemma {:induction false} TrimShrinks(edge: Span, covers: seq<Rect>, s: Span)
    requires s in TrimAll([edge], covers)
    ensures Within(s, edge)
  {
    if covers != [] {
      var rest, cover := covers[..|covers| - 1], covers[|covers| - 1];
      TrimMembers(TrimAll([edge], rest), cover, s);
      var whole :| whole in TrimAll([edge], rest) && s in Cut(whole, cover);
      TrimShrinks(edge, rest, whole);
    }
  }

  lemma ExposedEdgeSpans(window: Rect, front: seq<Rect>, area: Rect, s: Span)
    ensures s in EdgeSpans(window, front, area)
       <==> Maximal(s, Clipped(window, area), Covers(window, front)) && Wide(s, NARROWEST)
  {
    forall c | c in Covers(window, front) ensures c.Valid() { CoversMembers(window, front, c); }
    SpansAreExact(Clipped(window, area), Covers(window, front), s);
  }

  // ------------------------------------------------------ order and filtering

  predicate LeftOf(a: Span, b: Span) { a.right <= b.left }

  ghost predicate Ordered(spans: seq<Span>) {
    forall i, j :: 0 <= i < j < |spans| ==> LeftOf(spans[i], spans[j])
  }

  lemma OrderedJoin(a: seq<Span>, b: seq<Span>)
    requires Ordered(a) && Ordered(b)
    requires forall s, t :: s in a && t in b ==> LeftOf(s, t)
    ensures Ordered(a + b)
  {
    forall i, j | 0 <= i < j < |a + b| ensures LeftOf((a + b)[i], (a + b)[j]) {
      if i < |a| <= j { assert a[i] in a && b[j - |a|] in b; }
    }
  }

  lemma CutOrdered(s: Span, cover: Rect, least: real)
    requires cover.Valid()
    ensures Ordered(Keep(Cut(s, cover), least))
  {
    if cover.Right() <= s.left || cover.x >= s.right {
      KeepPair(s, s, least);
      assert |One(s, least)| <= 1;
    } else {
      var a, b := Span(s.left, Min(cover.x, s.right)), Span(Max(cover.Right(), s.left), s.right);
      KeepPair(a, b, least);
      assert LeftOf(a, b);
    }
  }

  lemma CutShrinks(s: Span, cover: Rect, least: real, t: Span)
    requires t in Keep(Cut(s, cover), least)
    ensures Within(t, s)
  {
    KeepMembers(Cut(s, cover), least, t);
  }

  lemma {:induction false} TrimOrdered(spans: seq<Span>, cover: Rect)
    requires Ordered(spans) && cover.Valid()
    ensures Ordered(Trim(spans, cover))
  {
    if spans != [] {
      var rest, last := spans[..|spans| - 1], spans[|spans| - 1];
      TrimOrdered(rest, cover);
      CutOrdered(last, cover, NARROWEST);
      forall s, t | s in Trim(rest, cover) && t in Keep(Cut(last, cover), NARROWEST) ensures LeftOf(s, t) {
        TrimMembers(rest, cover, s);
        var whole :| whole in rest && s in Cut(whole, cover);
        CutShrinks(last, cover, NARROWEST, t);
        assert LeftOf(whole, last);
      }
      OrderedJoin(Trim(rest, cover), Keep(Cut(last, cover), NARROWEST));
    }
  }

  /** The pieces come left to right and do not overlap. */
  lemma {:induction false} PiecesInOrder(edge: Span, covers: seq<Rect>)
    requires Solid(covers)
    ensures Ordered(TrimAll([edge], covers))
  {
    if covers != [] {
      var rest := covers[..|covers| - 1];
      PiecesInOrder(edge, rest);
      TrimOrdered(TrimAll([edge], rest), covers[|covers| - 1]);
    }
  }

  /** Cutting without dropping anything. */
  function CutEach(spans: seq<Span>, cover: Rect): seq<Span> {
    if spans == [] then [] else CutEach(spans[..|spans| - 1], cover) + Cut(spans[|spans| - 1], cover)
  }

  function CutAll(spans: seq<Span>, covers: seq<Rect>): seq<Span> {
    if covers == [] then spans else CutEach(CutAll(spans, covers[..|covers| - 1]), covers[|covers| - 1])
  }

  lemma {:induction false} KeepJoin(a: seq<Span>, b: seq<Span>, least: real)
    ensures Keep(a + b, least) == Keep(a, least) + Keep(b, least)
  {
    if b == [] {
      assert a + b == a;
    } else {
      assert (a + b)[..|a + b| - 1] == a + b[..|b| - 1];
      KeepJoin(a, b[..|b| - 1], least);
    }
  }

  lemma NarrowCutsAreNarrow(s: Span, cover: Rect)
    requires !Wide(s, NARROWEST)
    ensures Keep(Cut(s, cover), NARROWEST) == []
  {
    if Keep(Cut(s, cover), NARROWEST) != [] {
      KeepMembers(Cut(s, cover), NARROWEST, Keep(Cut(s, cover), NARROWEST)[0]);
    }
  }

  lemma {:induction false} FilterThenTrim(spans: seq<Span>, cover: Rect)
    ensures Keep(CutEach(spans, cover), NARROWEST) == Trim(Keep(spans, NARROWEST), cover)
  {
    if spans != [] {
      var rest, last := spans[..|spans| - 1], spans[|spans| - 1];
      var kept := Keep(rest, NARROWEST);
      FilterThenTrim(rest, cover);
      KeepJoin(CutEach(rest, cover), Cut(last, cover), NARROWEST);
      if Wide(last, NARROWEST) {
        assert (kept + [last])[..|kept|] == kept;
      } else {
        NarrowCutsAreNarrow(last, cover);
        assert kept + [] == kept;
      }
    }
  }

  lemma {:induction false} KeptIsKept(spans: seq<Span>)
    ensures Keep(Keep(spans, NARROWEST), NARROWEST) == Keep(spans, NARROWEST)
  {
    if spans != [] {
      var rest, last := spans[..|spans| - 1], spans[|spans| - 1];
      KeptIsKept(rest);
      KeepJoin(Keep(rest, NARROWEST), One(last, NARROWEST), NARROWEST);
      KeepPair(last, last, NARROWEST);
    }
  }

  lemma {:induction false} TrimmedIsKept(spans: seq<Span>, cover: Rect)
    ensures Keep(Trim(spans, cover), NARROWEST) == Trim(spans, cover)
  {
    if spans != [] {
      var rest, last := spans[..|spans| - 1], spans[|spans| - 1];
      TrimmedIsKept(rest, cover);
      KeepJoin(Trim(rest, cover), Keep(Cut(last, cover), NARROWEST), NARROWEST);
      KeptIsKept(Cut(last, cover));
    }
  }

  lemma {:induction false} TrimIgnoresNarrow(spans: seq<Span>, cover: Rect)
    ensures Trim(Keep(spans, NARROWEST), cover) == Trim(spans, cover)
  {
    if spans != [] {
      var rest, last := spans[..|spans| - 1], spans[|spans| - 1];
      var kept := Keep(rest, NARROWEST);
      TrimIgnoresNarrow(rest, cover);
      if Wide(last, NARROWEST) {
        assert (kept + [last])[..|kept|] == kept;
      } else {
        NarrowCutsAreNarrow(last, cover);
        assert kept + [] == kept;
      }
    }
  }

  /** Dropping narrow pieces while cutting equals dropping them once at the end. */
  lemma {:induction false} FilterOnceIsEnough(edge: Span, covers: seq<Rect>)
    ensures Keep(TrimAll([edge], covers), NARROWEST) == Keep(CutAll([edge], covers), NARROWEST)
  {
    if covers != [] {
      var rest, cover := covers[..|covers| - 1], covers[|covers| - 1];
      FilterOnceIsEnough(edge, rest);
      FilterThenTrim(CutAll([edge], rest), cover);
      TrimmedIsKept(TrimAll([edge], rest), cover);
      TrimIgnoresNarrow(TrimAll([edge], rest), cover);
    }
  }

  // ------------------------------------------------------- a whole habitat

  /** `s` is an exposed piece of the top edge of `windows[i]` on `area`. */
  ghost predicate Stands(s: Surface, windows: seq<Rect>, i: nat, area: Rect)
    requires i < |windows|
  {
    && windows[i].Valid() && EdgeWithin(windows[i], area) && s.y == windows[i].y
    && s.right - s.left >= NARROWEST
    && Maximal(Span(s.left, s.right), Clipped(windows[i], area), Covers(windows[i], windows[..i]))
  }

  lemma RaisedMembers(spans: seq<Span>, y: real, s: Surface)
    ensures s in Raised(spans, y) <==> s.y == y && Span(s.left, s.right) in spans
  {
    if Span(s.left, s.right) in spans && s.y == y {
      var k :| 0 <= k < |spans| && spans[k] == Span(s.left, s.right);
      assert Raised(spans, y)[k] == s;
    }
  }

  lemma {:induction false} EdgeSurfacesExact(windows: seq<Rect>, i: nat, areas: seq<Area>, s: Surface)
    requires i < |windows| && windows[i].Valid()
    ensures s in EdgeSurfaces(windows[i], windows[..i], areas)
       <==> exists j :: 0 <= j < |areas| && Stands(s, windows, i, areas[j].rect)
  {
    if areas != [] {
      var rest, last := areas[..|areas| - 1], areas[|areas| - 1].rect;
      EdgeSurfacesExact(windows, i, rest, s);
      RaisedMembers(EdgeSpans(windows[i], windows[..i], last), windows[i].y, s);
      ExposedEdgeSpans(windows[i], windows[..i], last, Span(s.left, s.right));
      assert forall j :: 0 <= j < |rest| ==> rest[j] == areas[j];
      if j :| 0 <= j < |areas| && Stands(s, windows, i, areas[j].rect) {
        assert j == |rest| || Stands(s, windows, i, rest[j].rect);
      }
    }
  }

  lemma StandsInPrefix(s: Surface, windows: seq<Rect>, i: nat, area: Rect)
    requires i < |windows| - 1
    ensures Stands(s, windows[..|windows| - 1], i, area) <==> Stands(s, windows, i, area)
  {
    assert windows[..|windows| - 1][..i] == windows[..i];
  }

  lemma {:induction false} WindowSurfacesExact(windows: seq<Rect>, areas: seq<Area>, s: Surface)
    ensures s in WindowSurfaces(windows, areas)
       <==> exists i, j :: 0 <= i < |windows| && 0 <= j < |areas| && Stands(s, windows, i, areas[j].rect)
  {
    if windows != [] {
      var n := |windows| - 1;
      WindowSurfacesExact(windows[..n], areas, s);
      if windows[n].Valid() { EdgeSurfacesExact(windows, n, areas, s); }
      forall i, j | 0 <= i < n && 0 <= j < |areas|
        ensures Stands(s, windows[..n], i, areas[j].rect) <==> Stands(s, windows, i, areas[j].rect)
      {
        StandsInPrefix(s, windows, i, areas[j].rect);
      }
    }
  }

  /** A habitat has the exposed pieces and the monitor floors, and nothing else. */
  lemma SurfacesAreExact(areas: seq<Area>, windows: seq<Rect>, s: Surface)
    ensures var h := NewHabitat(areas, windows);
            s in h.surfaces <==>
            || (exists i, j :: 0 <= i < |windows| && 0 <= j < |h.areas| && Stands(s, windows, i, h.areas[j].rect))
            || (exists j :: 0 <= j < |h.areas|
                 && s == Surface(h.areas[j].rect.x, h.areas[j].rect.Right(), h.areas[j].rect.Bottom()))
  {
    var usable := Usable(areas);
    WindowSurfacesExact(windows, usable, s);
    assert forall j :: 0 <= j < |usable| ==>
      Floors(usable)[j] == Surface(usable[j].rect.x, usable[j].rect.Right(), usable[j].rect.Bottom());
  }

  /** Every surface lies on one of the usable monitors. */
  lemma SurfacesOnMonitors(areas: seq<Area>, windows: seq<Rect>, s: Surface)
    requires s in NewHabitat(areas, windows).surfaces
    ensures exists j :: 0 <= j < |Usable(areas)| && OnMonitor(s, Usable(areas)[j].rect)
  {
    SurfacesAreExact(areas, windows, s);
    var h := NewHabitat(areas, windows);
    if i, j :| 0 <= i < |windows| && 0 <= j < |h.areas| && Stands(s, windows, i, h.areas[j].rect) {
      ClearWithin(Span(s.left, s.right), Clipped(windows[i], h.areas[j].rect), Covers(windows[i], windows[..i]));
      assert OnMonitor(s, Usable(areas)[j].rect);
    } else {
      var j :| 0 <= j < |h.areas| && s == Surface(h.areas[j].rect.x, h.areas[j].rect.Right(), h.areas[j].rect.Bottom());
      UsableAreValid(areas, j);
      assert OnMonitor(s, Usable(areas)[j].rect);
    }
  }

  predicate OnMonitor(s: Surface, area: Rect) {
    area.x <= s.left <= s.right <= area.Right() && area.y <= s.y <= area.Bottom()
  }

  lemma {:induction false} UsableAreValid(areas: seq<Area>, j: nat)
    requires j < |Usable(areas)|
    ensures Usable(areas)[j].rect.Valid() && Usable(areas)[j].scale > 0.0
  {
    if j < |Usable(areas[..|areas| - 1])| { UsableAreValid(areas[..|areas| - 1], j); }
  }
}
