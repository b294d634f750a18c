/**
 Where a desktop pet may stand: the top edges of windows, minus every window in
 front of them, clipped to the usable monitor areas.
 */
module Habitats {
  import opened Options

  datatype Rect = Rect(x: real, y: real, width: real, height: real) {
    function Right(): real { x + width }

    function Bottom(): real { y + height }

    predicate Valid() { width > 0.0 && height > 0.0 }
  }

  datatype Area = Area(rect: Rect, scale: real)
  datatype Span = Span(left: real, right: real)
  datatype Surface = Surface(left: real, right: real, y: real)
  datatype Habitat = Habitat(areas: seq<Area>, surfaces: seq<Surface>)

  const NARROWEST := 32.0
  const HEADROOM := 40.0

  function Max(a: real, b: real): real { if a >= b then a else b }

  function Min(a: real, b: real): real { if a <= b then a else b }

  // ------------------------------------------------------- one edge, cut up

  /** What one covering window leaves of a span. */
  function Cut(s: Span, cover: Rect): seq<Span> {
    if cover.Right() <= s.left || cover.x >= s.right then [s]
    else [Span(s.left, Min(cover.x, s.right)), Span(Max(cover.Right(), s.left), s.right)]
  }

  predicate Wide(s: Span, least: real) { s.right - s.left >= least }

  function One(s: Span, least: real): seq<Span> {
    if Wide(s, least) then [s] else []
  }

  function Keep(spans: seq<Span>, least: real): seq<Span> {
    if spans == [] then [] else Keep(spans[..|spans| - 1], least) + One(spans[|spans| - 1], least)
  }

  /** Cuts every span and keeps what is wide enough. */
  function Trim(spans: seq<Span>, cover: Rect): seq<Span> {
    if spans == [] then []
    else Trim(spans[..|spans| - 1], cover) + Keep(Cut(spans[|spans| - 1], cover), NARROWEST)
  }

  function TrimAll(spans: seq<Span>, covers: seq<Rect>): seq<Span> {
    if covers == [] then spans
    else Trim(TrimAll(spans, covers[..|covers| - 1]), covers[|covers| - 1])
  }

  predicate InFront(window: Rect, r: Rect) {
    r.Valid() && r.y <= window.y && r.Bottom() >= window.y - 1.0
  }

  /** The windows listed before `window` that reach across its top edge. */
  function Covers(window: Rect, front: seq<Rect>): seq<Rect> {
    if front == [] then []
    else Covers(window, front[..|front| - 1]) + (if InFront(window, front[|front| - 1]) then [front[|front| - 1]] else [])
  }

  predicate EdgeWithin(window: Rect, area: Rect) {
    area.y + HEADROOM <= window.y <= area.Bottom()
  }

  function Clipped(window: Rect, area: Rect): Span {
    Span(Max(window.x, area.x), Min(window.Right(), area.Right()))
  }

  function EdgeSpans(window: Rect, front: seq<Rect>, area: Rect): seq<Span> {
    Keep(TrimAll([Clipped(window, area)], Covers(window, front)), NARROWEST)
  }

  function Raised(spans: seq<Span>, y: real): seq<Surface> {
    seq(|spans|, i requires 0 <= i < |spans| => Surface(spans[i].left, spans[i].right, y))
  }

  function EdgeOn(window: Rect, front: seq<Rect>, area: Rect): seq<Surface> {
    if EdgeWithin(window, area) then Raised(EdgeSpans(window, front, area), window.y) else []
  }

  function EdgeSurfaces(window: Rect, front: seq<Rect>, areas: seq<Area>): seq<Surface> {
    if areas == [] then []
    else
      var last := areas[|areas| - 1].rect;
      EdgeSurfaces(window, front, areas[..|areas| - 1]) + EdgeOn(window, front, last)
  }

  function WindowSurfaces(windows: seq<Rect>, areas: seq<Area>): seq<Surface> {
    if windows == [] then []
    else
      var last, front := windows[|windows| - 1], windows[..|windows| - 1];
      WindowSurfaces(front, areas) + (if last.Valid() then EdgeSurfaces(last, front, areas) else [])
  }

  function Floors(areas: seq<Area>): seq<Surface> {
    seq(|areas|, i requires 0 <= i < |areas| => Surface(areas[i].rect.x, areas[i].rect.Right(), areas[i].rect.Bottom()))
  }

  function Usable(areas: seq<Area>): seq<Area> {
    if areas == [] then []
    else Usable(areas[..|areas| - 1])
         + (if areas[|areas| - 1].rect.Valid() && areas[|areas| - 1].scale > 0.0 then [areas[|areas| - 1]] else [])
  }

  function NewHabitat(areas: seq<Area>, windows: seq<Rect>): Habitat {
    Habitat(Usable(areas), WindowSurfaces(windows, Usable(areas)) + Floors(Usable(areas)))
  }

  // -------------------------------------------------------------- the loops

  lemma KeepPair(a: Span, b: Span, least: real)
    ensures Keep([a], least) == One(a, least)
    ensures Keep([a, b], least) == One(a, least) + One(b, least)
  {
    assert [a, b][..1] == [a] && [a][..0] == [];
  }

  lemma KeepNext(spans: seq<Span>, k: nat, least: real)
    requires k < |spans|
    ensures Keep(spans[..k + 1], least) == Keep(spans[..k], least) + One(spans[k], least)
  {
    assert spans[..k + 1][..k] == spans[..k];
  }

  lemma TrimStep(spans: seq<Span>, cover: Rect, k: nat)
    requires k < |spans|
    ensures Trim(spans[..k + 1], cover) == Trim(spans[..k], cover) + Keep(Cut(spans[k], cover), NARROWEST)
  {
    assert spans[..k + 1][..k] == spans[..k];
  }

  method TrimSpans(spans: seq<Span>, cover: Rect) returns (kept: seq<Span>)
    ensures kept == Trim(spans, cover)
  {
    kept := [];
    for k := 0 to |spans|
      invariant kept == Trim(spans[..k], cover)
    {
      TrimStep(spans, cover, k);
      var s := spans[k];
      if cover.Right() <= s.left || cover.x >= s.right {
        KeepPair(s, s, NARROWEST);
        if s.right - s.left >= 32.0 { kept := kept + [s]; }
      } else {
        var before, after := Span(s.left, Min(cover.x, s.right)), Span(Max(cover.Right(), s.left), s.right);
        KeepPair(before, after, NARROWEST);
        if before.right - before.left >= 32.0 { kept := kept + [before]; }
        if after.right - after.left >= 32.0 { kept := kept + [after]; }
      }
    }
    assert spans[..|spans|] == spans;
  }

  lemma CoversNext(window: Rect, front: seq<Rect>, k: nat)
    requires k < |front|
    ensures Covers(window, front[..k + 1]) == Covers(window, front[..k]) + (if InFront(window, front[k]) then [front[k]] else [])
  {
    assert front[..k + 1][..k] == front[..k];
  }

  lemma TrimNext(spans: seq<Span>, covers: seq<Rect>, cover: Rect)
    ensures TrimAll(spans, covers + [cover]) == Trim(TrimAll(spans, covers), cover)
  {
    assert (covers + [cover])[..|covers|] == covers;
  }

  method ExposeEdge(window: Rect, front: seq<Rect>, area: Rect) returns (spans: seq<Span>)
    ensures spans == TrimAll([Clipped(window, area)], Covers(window, front))
  {
    spans := [Span(Max(window.x, area.x), Min(window.Right(), area.Right()))];
    for k := 0 to |front|
      invariant spans == TrimAll([Clipped(window, area)], Covers(window, front[..k]))
    {
      CoversNext(window, front, k);
      var cover := front[k];
      if cover.Valid() && cover.y <= window.y && cover.Bottom() >= window.y - 1.0 {
        TrimNext([Clipped(window, area)], Covers(window, front[..k]), cover);
        spans := TrimSpans(spans, cover);
      } else {
        assert Covers(window, front[..k + 1]) == Covers(window, front[..k]);
      }
    }
    assert front[..|front|] == front;
  }

  method Filter(areas: seq<Area>) returns (usable: seq<Area>)
    ensures usable == Usable(areas)
  {
    usable := [];
    for k := 0 to |areas|
      invariant usable == Usable(areas[..k])
    {
      assert areas[..k + 1][..k] == areas[..k];
      if areas[k].rect.Valid() && areas[k].scale > 0.0 {
        usable := usable + [areas[k]];
      }
    }
    assert areas[..|areas|] == areas;
  }

  method KeepWide(spans: seq<Span>) returns (wide: seq<Span>)
    ensures wide == Keep(spans, NARROWEST)
  {
    wide := [];
    for k := 0 to |spans|
      invariant wide == Keep(spans[..k], NARROWEST)
    {
      KeepNext(spans, k, NARROWEST);
      if spans[k].right - spans[k].left >= 32.0 { wide := wide + [spans[k]]; }
    }
    assert spans[..|spans|] == spans;
  }

  /** Adds the surfaces of one window on one monitor. */
  method AddEdge(surfaces: seq<Surface>, window: Rect, front: seq<Rect>, area: Rect) returns (extended: seq<Surface>)
    ensures extended == surfaces + EdgeOn(window, front, area)
  {
    if window.y < area.y + 40.0 || window.y > area.Bottom() {
      return surfaces;
    }
    var spans := ExposeEdge(window, front, area);
    var wide := KeepWide(spans);
    return surfaces + Raised(wide, window.y);
  }

  lemma Reassociate(a: seq<Surface>, b: seq<Surface>, c: seq<Surface>)
    ensures (a + b) + c == a + (b + c)
  {}

  lemma EdgeNext(window: Rect, front: seq<Rect>, areas: seq<Area>, k: nat)
    requires k < |areas|
    ensures EdgeSurfaces(window, front, areas[..k + 1])
         == EdgeSurfaces(window, front, areas[..k]) + EdgeOn(window, front, areas[k].rect)
  {
    assert areas[..k + 1][..k] == areas[..k];
  }

  method AddEdges(surfaces: seq<Surface>, window: Rect, front: seq<Rect>, usable: seq<Area>) returns (extended: seq<Surface>)
    ensures extended == surfaces + EdgeSurfaces(window, front, usable)
  {
    extended := surfaces;
    for j := 0 to |usable|
      invariant extended == surfaces + EdgeSurfaces(window, front, usable[..j])
    {
      EdgeNext(window, front, usable, j);
      Reassociate(surfaces, EdgeSurfaces(window, front, usable[..j]), EdgeOn(window, front, usable[j].rect));
      extended := AddEdge(extended, window, front, usable[j].rect);
    }
    assert usable[..|usable|] == usable;
  }

  method Build(areas: seq<Area>, windows: seq<Rect>) returns (habitat: Habitat)
    ensures habitat == NewHabitat(areas, windows)
  {
    var usable := Filter(areas);
    var surfaces: seq<Surface> := [];
    for index := 0 to |windows|
      invariant surfaces == WindowSurfaces(windows[..index], usable)
    {
      assert windows[..index + 1][..index] == windows[..index];
      var window, front := windows[index], windows[..index];
      if window.Valid() {
        surfaces := AddEdges(surfaces, window, front, usable);
      }
    }
    assert windows[..|windows|] == windows;
    return Habitat(usable, surfaces + Floors(usable));
  }
}
