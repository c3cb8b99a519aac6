/** Boxes over exact reals: cutting a reported box by runes, and placing it on a page. */
module Geometry {
  import opened Wrappers
  import opened RealMath
  import opened RunScan

  datatype Point = Point(x: real, y: real)
  datatype Polygon = Polygon(a: Point, b: Point, c: Point, d: Point)
  datatype Region = Region(page: int, polygon: Polygon)
  datatype PageSize = PageSize(width: real, height: real)
  datatype Box = Box(minX: real, minY: real, maxX: real, maxY: real)

  /** A page without size is the fault of the upload; a region that cannot be placed is the fault of the answer. */
  datatype PlaceError = NoUsableDimensions | Unplaceable

  function Min(a: real, b: real): real { if a <= b then a else b }
  function Max(a: real, b: real): real { if a >= b then a else b }

  predicate Proper(b: Box) {
    b.minX <= b.maxX && b.minY <= b.maxY
  }

  predicate Within(inner: Box, outer: Box) {
    && outer.minX <= inner.minX && inner.maxX <= outer.maxX
    && outer.minY <= inner.minY && inner.maxY <= outer.maxY
  }

  function Corners(b: Box): Polygon {
    Polygon(Point(b.minX, b.minY), Point(b.maxX, b.minY), Point(b.maxX, b.maxY), Point(b.minX, b.maxY))
  }

  /** The smallest box around the four points. */
  function PolygonBounds(p: Polygon): (b: Box)
    ensures Proper(b)
    ensures forall q | q in [p.a, p.b, p.c, p.d] :: b.minX <= q.x <= b.maxX && b.minY <= q.y <= b.maxY
    ensures exists q, r | q in [p.a, p.b, p.c, p.d] && r in [p.a, p.b, p.c, p.d] :: b.minX == q.x && b.maxX == r.x
    ensures exists q, r | q in [p.a, p.b, p.c, p.d] && r in [p.a, p.b, p.c, p.d] :: b.minY == q.y && b.maxY == r.y
  {
    assert p.a in [p.a, p.b, p.c, p.d] && p.b in [p.a, p.b, p.c, p.d] && p.c in [p.a, p.b, p.c, p.d]
      && p.d in [p.a, p.b, p.c, p.d];
    Box(Min(Min(Min(p.a.x, p.b.x), p.c.x), p.d.x), Min(Min(Min(p.a.y, p.b.y), p.c.y), p.d.y),
        Max(Max(Max(p.a.x, p.b.x), p.c.x), p.d.x), Max(Max(Max(p.a.y, p.b.y), p.c.y), p.d.y))
  }

  lemma BoundsOfCorners(b: Box)
    requires Proper(b)
    ensures PolygonBounds(Corners(b)) == b
  {
  }

  // ----- units -----

  const SLACK: real := 0.000001

  /** The box lies in the unit square, so its coordinates are fractions of the page. */
  predicate Normalized(b: Box) {
    b.minX >= -SLACK && b.minY >= -SLACK && b.maxX <= 1.0 + SLACK && b.maxY <= 1.0 + SLACK
      && (b.maxX > 0.0 || b.maxY > 0.0)
  }

  // ----- cutting a box by runes -----

  /** Where rune k of n starts on a box that spreads its runes evenly. */
  function Cut(b: Box, k: nat, n: nat): real
    requires n > 0
  {
    b.minX + (b.maxX - b.minX) * (k as real) / (n as real)
  }

  function RuneCell(b: Box, i: nat, n: nat): Box
    requires i < n
  {
    Box(Cut(b, i, n), b.minY, Cut(b, i + 1, n), b.maxY)
  }

  /** The part of a box that a span covers. Outside normalized boxes a hairline is widened to one unit. */
  function SubBox(b: Box, span: Span, n: nat): Box
    requires n > 0
  {
    var startX, endX := Cut(b, span.start, n), Cut(b, span.end, n);
    Box(startX, b.minY, if !Normalized(b) && endX - startX < 1.0 then startX + 1.0 else endX, b.maxY)
  }

  function BuildSubRegions(polygon: Polygon, n: nat, spans: seq<Span>): seq<Polygon> {
    if spans == [] || n == 0 then []
    else
      var b := PolygonBounds(polygon);
      seq(|spans|, j requires 0 <= j < |spans| => Corners(SubBox(b, spans[j], n)))
  }

  /** The width of one rune. */
  function Step(b: Box, n: nat): real
    requires n > 0
  {
    (b.maxX - b.minX) / (n as real)
  }

  lemma CutStep(b: Box, k: nat, n: nat)
    requires n > 0
    ensures Cut(b, k, n) == b.minX + Times(k as real, Step(b, n))
  {
  }

  lemma CutEnds(b: Box, n: nat)
    requires n > 0
    ensures Cut(b, 0, n) == b.minX && Cut(b, n, n) == b.maxX
    ensures Times(n as real, Step(b, n)) == b.maxX - b.minX
    ensures b.minX <= b.maxX ==> Step(b, n) >= 0.0
    ensures b.minX < b.maxX ==> Step(b, n) > 0.0
  {
    Quotient(b.maxX - b.minX, n as real);
    CutStep(b, 0, n);
    CutStep(b, n, n);
    hide Cut, Times;
    TimesUnits(Step(b, n));
  }

  lemma CutIsMonotone(b: Box, i: nat, j: nat, n: nat)
    requires b.minX <= b.maxX && i <= j <= n && n > 0
    ensures b.minX <= Cut(b, i, n) <= Cut(b, j, n) <= b.maxX
    ensures Cut(b, 0, n) == b.minX && Cut(b, n, n) == b.maxX
  {
    CutEnds(b, n);
    CutStep(b, i, n);
    CutStep(b, j, n);
    hide Step, Cut, Times;
    TimesUnits(Step(b, n));
    TimesMonotone(0.0, i as real, Step(b, n));
    TimesMonotone(i as real, j as real, Step(b, n));
    TimesMonotone(j as real, n as real, Step(b, n));
  }

  lemma SubBoxHoldsTheCell(b: Box, span: Span, n: nat, i: nat)
    requires Proper(b) && span.Has(i) && span.end <= n
    ensures Proper(SubBox(b, span, n)) && Proper(RuneCell(b, i, n))
    ensures Within(RuneCell(b, i, n), SubBox(b, span, n))
  {
    CutIsMonotone(b, span.start, i, n);
    CutIsMonotone(b, i, i + 1, n);
    CutIsMonotone(b, i + 1, span.end, n);
  }

  /** The cells of the runes are strips of the whole height that divide the box from its left to its right edge. */
  lemma CellsDivideTheBox(b: Box, i: nat, n: nat)
    requires i < n
    ensures RuneCell(b, i, n).minY == b.minY && RuneCell(b, i, n).maxY == b.maxY
    ensures RuneCell(b, i, n).minX * (n as real) == b.minX * ((n - i) as real) + b.maxX * (i as real)
    ensures RuneCell(b, i, n).maxX * (n as real) == b.minX * ((n - i - 1) as real) + b.maxX * ((i + 1) as real)
  {
    CutInTheRatio(b, i, n);
    CutInTheRatio(b, i + 1, n);
    hide Cut;
  }

  lemma CutInTheRatio(b: Box, k: nat, n: nat)
    requires k <= n && n > 0
    ensures Cut(b, k, n) * (n as real) == b.minX * ((n - k) as real) + b.maxX * (k as real)
  {
    var rise := (b.maxX - b.minX) * (k as real);
    var share := rise / (n as real);
    assert share * (n as real) == rise;
    assert (n - k) as real == n as real - k as real;
    assert b.minX * ((n - k) as real) == b.minX * (n as real) - b.minX * (k as real);
  }

  // ----- conservation of width -----

  function SubWidths(b: Box, spans: seq<Span>, n: nat): real
    requires n > 0
  {
    if spans == [] then 0.0
    else
      var last := SubBox(b, spans[|spans| - 1], n);
      SubWidths(b, spans[..|spans| - 1], n) + (last.maxX - last.minX)
  }

  predicate NeedsNoRepair(b: Box, span: Span, n: nat)
    requires n > 0
  {
    Normalized(b) || Cut(b, span.end, n) - Cut(b, span.start, n) >= 1.0
  }

  lemma CutDifference(b: Box, i: nat, j: nat, n: nat)
    requires n > 0 && i <= j
    ensures Cut(b, j, n) - Cut(b, i, n) == Times((j - i) as real, Step(b, n))
  {
    CutStep(b, i, n);
    CutStep(b, j, n);
    hide Step, Cut, Times;
    TimesAdds(i as real, (j - i) as real, Step(b, n));
  }

  lemma {:induction false} WidthInSteps(b: Box, spans: seq<Span>, n: nat)
    requires n > 0
    requires forall j | 0 <= j < |spans| :: spans[j].start <= spans[j].end
    requires forall j | 0 <= j < |spans| :: NeedsNoRepair(b, spans[j], n)
    ensures SubWidths(b, spans, n) == Times(Width(spans) as real, Step(b, n))
  {
    hide Step, Cut, Times, Normalized;
    TimesUnits(Step(b, n));
    if spans != [] {
      var front, last := spans[..|spans| - 1], spans[|spans| - 1];
      WidthInSteps(b, front, n);
      CutDifference(b, last.start, last.end, n);
      TimesAdds(Width(front) as real, (last.end - last.start) as real, Step(b, n));
    }
  }

  /** Without hairline repair the sub-boxes take exactly the hidden share of the reported width. */
  lemma WidthIsConserved(b: Box, spans: seq<Span>, n: nat)
    requires n > 0
    requires forall j | 0 <= j < |spans| :: spans[j].start <= spans[j].end
    requires forall j | 0 <= j < |spans| :: NeedsNoRepair(b, spans[j], n)
    ensures SubWidths(b, spans, n) * (n as real) == (b.maxX - b.minX) * (Width(spans) as real)
  {
    WidthInSteps(b, spans, n);
    CutEnds(b, n);
    Shares(b.maxX - b.minX, Width(spans) as real, n as real, Step(b, n), SubWidths(b, spans, n));
  }

  lemma Shares(w: real, x: real, n: real, step: real, share: real)
    requires Times(n, step) == w && share == Times(x, step)
    ensures share * n == w * x
  {
  }

  // ----- which boxes keep their units when cut -----

  predicate KeepsUnits(b: Box, span: Span, n: nat)
    requires n > 0
  {
    Normalized(SubBox(b, span, n)) == Normalized(b)
  }

  /** A condition on the reported box alone: no way of cutting it changes how its coordinates are read. */
  predicate UnitSafe(b: Box) {
    if Normalized(b) then b.minX >= 0.0 || b.maxY > 0.0
    else
      || b.minY < -SLACK || b.maxY > 1.0 + SLACK
      || b.minX > SLACK
      || (b.minX < -SLACK && b.maxX <= -SLACK)
  }

  lemma UnitSafeBoxesKeepUnits(b: Box, span: Span, n: nat)
    requires Proper(b) && UnitSafe(b) && span.start < span.end <= n
    ensures KeepsUnits(b, span, n)
  {
    CutIsMonotone(b, span.start, span.end, n);
    if Normalized(b) {
      if b.minX == b.maxX {
      } else if b.minX >= 0.0 && b.maxX > 0.0 {
        CutIsPositive(b, span.end, n);
      }
    } else if b.minX < -SLACK && b.maxX <= -SLACK {
      if b.minX < b.maxX {
        CutIsBelowTheEnd(b, span.start, n);
      }
    }
  }

  lemma CutIsPositive(b: Box, k: nat, n: nat)
    requires n > 0 && k > 0 && 0.0 <= b.minX < b.maxX
    ensures Cut(b, k, n) > 0.0
  {
    CutEnds(b, n);
    CutStep(b, k, n);
    hide Cut, Step, Times;
    TimesPositive(k as real, Step(b, n));
  }

  lemma CutIsBelowTheEnd(b: Box, k: nat, n: nat)
    requires k < n && b.minX < b.maxX
    ensures Cut(b, k, n) < b.maxX
  {
    CutEnds(b, n);
    CutDifference(b, k, n, n);
    hide Cut, Step, Times;
    TimesPositive((n - k) as real, Step(b, n));
  }

  /** A box that starts left of the page but reaches it has a cut that lands in the unit square. */
  lemma CutIntoTheUnitSquare(b: Box) returns (k: nat, n: nat)
    requires b.minX < -SLACK < b.maxX
    ensures k < n && -SLACK <= Cut(b, k, n) < 0.0 && Cut(b, k + 1, n) - Cut(b, k, n) < 1.0
  {
    n := FineEnough(b.maxX - b.minX, Min(SLACK, b.maxX + SLACK));
    CutEnds(b, n);
    var step := Step(b, n);
    k := FirstStepFrom(-SLACK - b.minX, step);
    CutStep(b, k, n);
    CutDifference(b, k, k + 1, n);
    assert step < SLACK && step < b.maxX + SLACK;
    hide Cut, Step, Times;
    TimesUnits(step);
    if k >= n {
      TimesMonotone(n as real, k as real, step);
    }
  }

  lemma UnsafeBoxChangesUnits(b: Box) returns (span: Span, n: nat)
    requires Proper(b) && !UnitSafe(b)
    ensures span.start < span.end <= n && !KeepsUnits(b, span, n)
  {
    if Normalized(b) || b.minX >= -SLACK {
      n := FineEnough(b.maxX - b.minX, if Normalized(b) then -b.minX else 1.0);
      span := Span(0, 1);
      CutEnds(b, n);
      CutStep(b, 1, n);
      assert Step(b, n) < if Normalized(b) then -b.minX else 1.0;
      hide Cut, Step, Times;
      TimesUnits(Step(b, n));
    } else {
      var k: nat;
      k, n := CutIntoTheUnitSquare(b);
      span := Span(k, k + 1);
      hide Cut;
    }
  }

  /** Exactly the unit-safe boxes keep their units for every value and every mask. */
  lemma BoxesKeepUnitsIff(b: Box)
    requires Proper(b)
    ensures UnitSafe(b) <==> forall span: Span, n: nat | span.start < span.end <= n :: KeepsUnits(b, span, n)
  {
    if UnitSafe(b) {
      forall span: Span, n: nat | span.start < span.end <= n
        ensures KeepsUnits(b, span, n)
      {
        UnitSafeBoxesKeepUnits(b, span, n);
      }
    } else {
      var span, n := UnsafeBoxChangesUnits(b);
    }
  }

  // ----- placing a region on a page -----

  const OVERFLOW_TOLERANCE: real := 0.05
  const MIN_PLACED_SIZE: real := 0.5

  predicate Usable(size: PageSize) {
    size.width > 0.0 && size.height > 0.0
  }

  /** The factors from reported to page units. */
  function Scale(b: Box, api: Option<PageSize>, target: PageSize): (real, real) {
    if Normalized(b) then (target.width, target.height)
    else if api.Some? && Usable(api.value) then (target.width / api.value.width, target.height / api.value.height)
    else (1.0, 1.0)
  }

  function Scaled(b: Box, scale: (real, real)): Box {
    Box(b.minX * scale.0, b.minY * scale.1, b.maxX * scale.0, b.maxY * scale.1)
  }

  function Clip(b: Box, target: PageSize): Box {
    Box(Max(b.minX, 0.0), Max(b.minY, 0.0), Min(b.maxX, target.width), Min(b.maxY, target.height))
  }

  /** Unscaled coordinates far beyond the page are in unknown units. */
  predicate Overflows(b: Box, api: Option<PageSize>, target: PageSize) {
    && !Normalized(b) && !(api.Some? && Usable(api.value))
    && (b.maxX > target.width * (1.0 + OVERFLOW_TOLERANCE) || b.maxY > target.height * (1.0 + OVERFLOW_TOLERANCE))
  }

  function WidenX(b: Box, target: PageSize): Box {
    if b.maxX - b.minX < 1.0 then
      var maxX := Min(b.minX + 1.0, target.width);
      b.(maxX := maxX, minX := maxX - 1.0)
    else b
  }

  function WidenY(b: Box, target: PageSize): Box {
    if b.maxY - b.minY < 1.0 then
      var maxY := Min(b.minY + 1.0, target.height);
      b.(maxY := maxY, minY := maxY - 1.0)
    else b
  }

  function PlaceRegion(region: Region, api: Option<PageSize>, target: PageSize): Result<Box, PlaceError> {
    if target.width <= 0.0 || target.height <= 0.0 then Err(NoUsableDimensions) else
    var b := PolygonBounds(region.polygon);
    if Overflows(b, api, target) then Err(Unplaceable) else
    var placed := Clip(Scaled(b, Scale(b, api, target)), target);
    if placed.maxX - placed.minX < MIN_PLACED_SIZE || placed.maxY - placed.minY < MIN_PLACED_SIZE then Err(Unplaceable)
    else Ok(WidenY(WidenX(placed, target), target))
  }

  function PageBox(target: PageSize): Box {
    Box(0.0, 0.0, target.width, target.height)
  }

  // ----- where a reported box is on the page -----

  /** All four coordinates lie between 0 and 1 to a millionth, and not all on the left and upper edge of the page. */
  predicate AreFractions(b: Box) {
    && (forall c | c in [b.minX, b.minY, b.maxX, b.maxY] :: -1.0 <= c * 1000000.0 <= 1000001.0)
    && exists c | c in [b.maxX, b.maxY] :: c > 0.0
  }

  /** The area is where a part of a reported box is on a page. Fractions are shares of the width and of the height of
      the page; otherwise a reported page size is to the page as the part is to the area, on each axis on its own; and
      without one the part is in units of the page already. */
  ghost predicate LandsOn(reported: Box, part: Box, api: Option<PageSize>, target: PageSize, area: Box) {
    if AreFractions(reported) then
      && area.minX == part.minX * target.width && area.maxX == part.maxX * target.width
      && area.minY == part.minY * target.height && area.maxY == part.maxY * target.height
    else if api.Some? && api.value.width > 0.0 && api.value.height > 0.0 then
      && area.minX * api.value.width == part.minX * target.width
      && area.maxX * api.value.width == part.maxX * target.width
      && area.minY * api.value.height == part.minY * target.height
      && area.maxY * api.value.height == part.maxY * target.height
    else area == part
  }

  lemma FractionsAreNormalized(b: Box)
    requires Proper(b)
    ensures Normalized(b) <==> AreFractions(b)
  {
    var all, ends := [b.minX, b.minY, b.maxX, b.maxY], [b.maxX, b.maxY];
    assert all[0] in all && all[1] in all && all[2] in all && all[3] in all && ends[0] in ends && ends[1] in ends;
  }

  lemma InProportion(area: real, api: real, part: real, target: real)
    requires api > 0.0
    ensures area * api == part * target <==> area == part * (target / api)
  {
    var q := target / api;
    assert q * api == target;
    assert part * q * api == part * target;
    if area * api == part * target {
      SameFactor(area, part * q, api);
    }
  }

  lemma SameFactor(x: real, y: real, s: real)
    requires s > 0.0 && x * s == y * s
    ensures x == y
  {
    assert (x - y) * s == 0.0;
  }

  /** There is exactly one such area, and it is the one placement computes. */
  lemma LandsOnIff(reported: Box, part: Box, api: Option<PageSize>, target: PageSize, area: Box)
    requires Proper(reported)
    ensures LandsOn(reported, part, api, target, area) <==> area == Scaled(part, Scale(reported, api, target))
  {
    FractionsAreNormalized(reported);
    hide AreFractions, Normalized;
    if !AreFractions(reported) && api.Some? && Usable(api.value) {
      LandsInProportion(part, api.value, target, area);
    }
  }

  lemma LandsInProportion(part: Box, api: PageSize, target: PageSize, area: Box)
    requires Usable(api)
    ensures
      (area.minX * api.width == part.minX * target.width && area.maxX * api.width == part.maxX * target.width
       && area.minY * api.height == part.minY * target.height && area.maxY * api.height == part.maxY * target.height)
      <==> area == Scaled(part, (target.width / api.width, target.height / api.height))
  {
    InProportion(area.minX, api.width, part.minX, target.width);
    InProportion(area.maxX, api.width, part.maxX, target.width);
    InProportion(area.minY, api.height, part.minY, target.height);
    InProportion(area.maxY, api.height, part.maxY, target.height);
  }

  /** The page the endpoint saw goes exactly onto the page of the document. */
  lemma TheReportedPageFillsThePage(reported: Box, api: PageSize, target: PageSize, area: Box)
    requires Proper(reported) && !AreFractions(reported) && Usable(api)
    ensures LandsOn(reported, PageBox(api), Some(api), target, area) <==> area == PageBox(target)
  {
    LandsOnIff(reported, PageBox(api), Some(api), target, area);
    FractionsAreNormalized(reported);
    hide AreFractions, Normalized;
    InProportion(target.width, api.width, api.width, target.width);
    InProportion(target.height, api.height, api.height, target.height);
  }

  /** One side of a placed rectangle: what is in sight of it, or one unit that holds it at the edge of the page. */
  predicate SideIsPlaced(lo: real, hi: real, size: real, placedLo: real, placedHi: real) {
    var from, to := if lo < 0.0 then 0.0 else lo, if hi > size then size else hi;
    if to - from >= 1.0 then placedLo == from && placedHi == to
    else placedHi - placedLo == 1.0 && placedLo <= from && to <= placedHi && (placedLo == from || placedHi == size)
  }

  /** Coordinates in no known unit that reach more than a twentieth beyond the page. */
  predicate AreOfAnotherPage(b: Box, api: Option<PageSize>, target: PageSize) {
    && !AreFractions(b) && !(api.Some? && api.value.width > 0.0 && api.value.height > 0.0)
    && (20.0 * b.maxX > 21.0 * target.width || 20.0 * b.maxY > 21.0 * target.height)
  }

  /** Less than half a unit of the side is in sight. */
  predicate SideIsOutOfSight(lo: real, hi: real, size: real) {
    2.0 * ((if hi > size then size else hi) - (if lo < 0.0 then 0.0 else lo)) < 1.0
  }

  /** What placement does, in terms of the area a reported box lands on: when it fails and why, and where it places. */
  lemma PlacementIsExact(region: Region, api: Option<PageSize>, target: PageSize, area: Box)
    requires LandsOn(PolygonBounds(region.polygon), PolygonBounds(region.polygon), api, target, area)
    ensures
      var b, r := PolygonBounds(region.polygon), PlaceRegion(region, api, target);
      && (r == Err(NoUsableDimensions) <==> target.width <= 0.0 || target.height <= 0.0)
      && (r == Err(Unplaceable) <==>
            && target.width > 0.0 && target.height > 0.0
            && (AreOfAnotherPage(b, api, target) || SideIsOutOfSight(area.minX, area.maxX, target.width)
                || SideIsOutOfSight(area.minY, area.maxY, target.height)))
      && (r.Ok? ==>
            && SideIsPlaced(area.minX, area.maxX, target.width, r.value.minX, r.value.maxX)
            && SideIsPlaced(area.minY, area.maxY, target.height, r.value.minY, r.value.maxY))
  {
    var b := PolygonBounds(region.polygon);
    LandsOnIff(b, b, api, target, area);
    FractionsAreNormalized(b);
    hide AreFractions, Normalized, LandsOn, Scale, Scaled, PolygonBounds;
  }

  /** A placed region shows: it covers the scaled box as far as it is on the page, and at least one unit. */
  lemma PlacedRegionCoversItsBox(region: Region, api: Option<PageSize>, target: PageSize)
    requires PlaceRegion(region, api, target).Ok?
    ensures var placed, b := PlaceRegion(region, api, target).value, PolygonBounds(region.polygon);
            && Within(Clip(Scaled(b, Scale(b, api, target)), target), placed)
            && placed.maxX - placed.minX >= 1.0
            && placed.maxY - placed.minY >= 1.0
            && placed.maxX <= target.width && placed.maxY <= target.height
  {
  }

  /** A placed region stays on the page exactly when the page is at least one unit wide and high. */
  lemma PlacedRegionIsOnThePageIff(region: Region, api: Option<PageSize>, target: PageSize)
    requires PlaceRegion(region, api, target).Ok?
    ensures Within(PlaceRegion(region, api, target).value, PageBox(target))
      <==> target.width >= 1.0 && target.height >= 1.0
  {
  }

  lemma ScaleIsNonNegative(b: Box, api: Option<PageSize>, target: PageSize)
    requires Usable(target)
    ensures Scale(b, api, target).0 >= 0.0 && Scale(b, api, target).1 >= 0.0
  {
    if !Normalized(b) && api.Some? && Usable(api.value) {
      DivMonotone(0.0, target.width, api.value.width);
      DivMonotone(0.0, target.height, api.value.height);
    }
  }

  lemma ScalingKeepsWithin(inner: Box, outer: Box, scale: (real, real))
    requires Within(inner, outer) && scale.0 >= 0.0 && scale.1 >= 0.0
    ensures Within(Scaled(inner, scale), Scaled(outer, scale))
  {
    MulMonotone(outer.minX, inner.minX, scale.0);
    MulMonotone(inner.maxX, outer.maxX, scale.0);
    MulMonotone(outer.minY, inner.minY, scale.1);
    MulMonotone(inner.maxY, outer.maxY, scale.1);
  }

  /** A sub-box read in the units of its box, once placed, covers the page area of every rune in its span. */
  lemma PlacedPartCoversTheRune(b: Box, span: Span, n: nat, i: nat, page: int, api: Option<PageSize>, target: PageSize)
    requires Proper(b) && span.Has(i) && span.end <= n && KeepsUnits(b, span, n)
    requires PlaceRegion(Region(page, Corners(SubBox(b, span, n))), api, target).Ok?
    ensures Within(Clip(Scaled(RuneCell(b, i, n), Scale(b, api, target)), target),
                   PlaceRegion(Region(page, Corners(SubBox(b, span, n))), api, target).value)
  {
    var sub := SubBox(b, span, n);
    var region := Region(page, Corners(sub));
    SubBoxHoldsTheCell(b, span, n, i);
    BoundsOfCorners(sub);
    var scale := Scale(b, api, target);
    assert Scale(sub, api, target) == scale;
    ScaleIsNonNegative(b, api, target);
    ScalingKeepsWithin(RuneCell(b, i, n), sub, scale);
    PlacedRegionCoversItsBox(region, api, target);
  }

  /** A sub-box of a unit-safe box, once placed, covers the page area of every rune in its span. */
  lemma PlacedSubBoxCoversTheRune(b: Box, span: Span, n: nat, i: nat, page: int, api: Option<PageSize>,
          target: PageSize)
    requires Proper(b) && UnitSafe(b) && span.Has(i) && span.end <= n
    requires PlaceRegion(Region(page, Corners(SubBox(b, span, n))), api, target).Ok?
    ensures Within(Clip(Scaled(RuneCell(b, i, n), Scale(b, api, target)), target),
                   PlaceRegion(Region(page, Corners(SubBox(b, span, n))), api, target).value)
  {
    UnitSafeBoxesKeepUnits(b, span, n);
    PlacedPartCoversTheRune(b, span, n, i, page, api, target);
  }

  /** Cutting a pixel box one rune wide can turn it into page fractions, which paints the wrong rows. */
  lemma AnUnsafeBoxIsPaintedElsewhere()
    ensures var b, span, target := Box(0.0, 0.6, 30.0, 1.0), Span(0, 1), PageSize(100.0, 100.0);
            && !UnitSafe(b) && !Normalized(b)
            && PlaceRegion(Region(1, Corners(SubBox(b, span, 30))), None, target) == Ok(Box(0.0, 60.0, 100.0, 100.0))
            && Scaled(RuneCell(b, 0, 30), Scale(b, None, target)) == Box(0.0, 0.6, 1.0, 1.0)
  {
    var b := Box(0.0, 0.6, 30.0, 1.0);
    assert Cut(b, 0, 30) == 0.0 && Cut(b, 1, 30) == 1.0;
    BoundsOfCorners(SubBox(b, Span(0, 1), 30));
  }

  // ----- stamps on a PDF page, whose origin is at the bottom left -----

  function Ceil(x: real): int {
    -((-x).Floor)
  }

  datatype Stamp = Stamp(x: real, y: real, width: int, height: int)

  /** A number printed with two decimals. */
  ghost predicate PrintsAs(x: real, printed: real) {
    (printed * 100.0).Floor as real == printed * 100.0 && x - 0.005 <= printed <= x + 0.005
  }

  function StampWidth(placed: Box): int {
    if Ceil(placed.maxX - placed.minX) < 1 then 1 else Ceil(placed.maxX - placed.minX)
  }

  function StampHeight(placed: Box): int {
    if Ceil(placed.maxY - placed.minY) < 1 then 1 else Ceil(placed.maxY - placed.minY)
  }

  /** The offset of the stamp before it is printed with two decimals. */
  function StampOffset(placed: Box, target: PageSize): Point {
    Point(placed.minX, target.height - placed.minY - Ceil(placed.maxY - placed.minY) as real)
  }

  ghost predicate StampsFor(placed: Box, target: PageSize, stamp: Stamp) {
    && PrintsAs(StampOffset(placed, target).x, stamp.x)
    && PrintsAs(StampOffset(placed, target).y, stamp.y)
    && stamp.width == StampWidth(placed) && stamp.height == StampHeight(placed)
  }

  function Flipped(b: Box, target: PageSize): Box {
    Box(b.minX, target.height - b.maxY, b.maxX, target.height - b.minY)
  }

  /** The stamp covers the flipped rectangle up to the precision of the printed offset. */
  lemma StampCoversTheFlippedBox(placed: Box, target: PageSize, stamp: Stamp)
    requires Proper(placed) && StampsFor(placed, target, stamp)
    ensures var flipped := Flipped(placed, target);
            && stamp.x - 0.005 <= flipped.minX
            && flipped.maxX <= stamp.x + stamp.width as real + 0.005
            && stamp.y - 0.005 <= flipped.minY
            && flipped.maxY <= stamp.y + stamp.height as real + 0.005
  {
  }
}
