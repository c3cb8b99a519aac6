/** End to end: what the masked document hides of every entity the answer reports. */
module Coverage {
  import opened Wrappers
  import opened RunScan
  import opened Masking
  import opened Geometry
  import opened CutBoxes
  import opened JsonTree
  import opened Collectors
  import opened WalkAgreement
  import opened Painter

  function MaskedFor(rules: RuleTable, entity: Entity): (masked: string) {
    MaskValue(rules(entity.key), entity.value)
  }

  /** Rune i of the value is hidden by its rule. */
  predicate HidesRune(rules: RuleTable, entity: Entity, i: nat) {
    var masked := MaskedFor(rules, entity);
    i < |entity.value| && i < |masked| && masked[i] != entity.value[i]
  }

  /** One box whose value is partly hidden is cut; any other box is covered in full. */
  predicate IsCut(rules: RuleTable, m: Members) {
    EntityOf(m).Some? && |BoxesOf(m)| == 1 && MaskedFor(rules, EntityOf(m).value) != EntityOf(m).value.value
  }

  // ----- from runes to regions -----

  /** Every hidden rune of a cut box lies in a sub-box that became a region. */
  lemma HiddenRuneHasARegion(rules: RuleTable, m: Members, i: nat) returns (r: Region, span: Span)
    requires IsCut(rules, m) && HidesRune(rules, EntityOf(m).value, i)
    ensures r in RegionsOf(rules, m)
    ensures span.Has(i) && span.end <= |EntityOf(m).value.value|
    ensures r == Region(PageForBox(BoxesOf(m)[0], PageOf(m)),
                        Corners(SubBox(PolygonBounds(BoxesOf(m)[0].polygon), span, |EntityOf(m).value.value|)))
  {
    hide EntityOf, BoxesOf, PageOf, MaskValue, PolygonBounds, SubBox;
    var entity, box := EntityOf(m).value, BoxesOf(m)[0];
    var masked := MaskedFor(rules, entity);
    SpansRoundTrip(rules(entity.key), entity.value);
    var spans := MaskedRuneSpans(entity.value, masked);
    var j := SpanOfHiddenRune(entity.value, masked, spans, i);
    span := spans[j];
    RegionsOfOneBox(rules, m);
    r := RegionsOfBox(box, true, entity.value, spans, PageOf(m))[j];
  }

  lemma SpanOfHiddenRune(v: string, masked: string, spans: seq<Span>, i: nat) returns (j: nat)
    requires i < |v| == |masked| && masked[i] != v[i]
    requires Separated(spans, |v|) && Overwrite(v, spans) == masked
    ensures j < |spans| && spans[j].Has(i) && spans[j].end <= |v|
  {
    assert Overwrite(v, spans)[i] != v[i];
    assert InSome(spans, i);
    j :| 0 <= j < |spans| && spans[j].Has(i);
  }

  lemma RegionsOfOneBox(rules: RuleTable, m: Members)
    requires EntityOf(m).Some? && |BoxesOf(m)| == 1
    ensures var entity := EntityOf(m).value;
            RegionsOf(rules, m) ==
            RegionsOfBox(BoxesOf(m)[0], true, entity.value, MaskedRuneSpans(entity.value, MaskedFor(rules, entity)),
              PageOf(m))
  {
    hide EntityOf, BoxesOf, PageOf, MaskValue, RegionsOfBox, MaskedRuneSpans;
    var entity, boxes := EntityOf(m).value, BoxesOf(m);
    var spans := MaskedRuneSpans(entity.value, MaskedFor(rules, entity));
    assert RegionsOfBoxes(boxes, 1, true, entity.value, spans, PageOf(m)) ==
           RegionsOfBoxes(boxes, 0, true, entity.value, spans, PageOf(m)) +
             RegionsOfBox(boxes[0], true, entity.value, spans, PageOf(m));
  }

  /** Every box that is not cut became a region as it is. */
  lemma WholeBoxHasARegion(rules: RuleTable, m: Members, k: nat) returns (r: Region)
    requires EntityOf(m).Some? && k < |BoxesOf(m)| && !IsCut(rules, m)
    ensures r in RegionsOf(rules, m)
    ensures r == Region(PageForBox(BoxesOf(m)[k], PageOf(m)), BoxesOf(m)[k].polygon)
  {
    hide EntityOf, BoxesOf, PageOf, MaskValue;
    var entity, boxes := EntityOf(m).value, BoxesOf(m);
    var spans := MaskedRuneSpans(entity.value, MaskedFor(rules, entity));
    r := Region(PageForBox(boxes[k], PageOf(m)), boxes[k].polygon);
    if |boxes| == 1 {
      SpansRoundTrip(rules(entity.key), entity.value);
      RegionsOfOneBox(rules, m);
    } else {
      WholeBoxAmong(boxes, |boxes|, k, entity.value, spans, PageOf(m));
    }
  }

  lemma {:induction false} WholeBoxAmong(boxes: seq<ParsedBox>, n: nat, k: nat, value: string, spans: seq<Span>,
          entityPage: int)
    requires k < n <= |boxes|
    ensures Region(PageForBox(boxes[k], entityPage), boxes[k].polygon) in RegionsOfBoxes(boxes, n, false, value,
      spans, entityPage)
  {
    if k < n - 1 {
      WholeBoxAmong(boxes, n - 1, k, value, spans, entityPage);
    }
  }

  function ReportedBox(m: Members, k: nat): (b: Box)
    requires k < |BoxesOf(m)|
    ensures Proper(b)
  {
    PolygonBounds(BoxesOf(m)[k].polygon)
  }

  /** The page a box names, or else the one its object names, or else the first. */
  function PageShown(m: Members, k: nat): int
    requires k < |BoxesOf(m)|
  {
    if BoxesOf(m)[k].page != 0 then BoxesOf(m)[k].page else if PageOf(m) > 0 then PageOf(m) else 1
  }

  // ----- exactly which regions an object is drawn as -----

  /** A run of hidden runes that is no part of a longer one. */
  ghost predicate HiddenRun(rules: RuleTable, entity: Entity, lo: nat, hi: nat) {
    && lo < hi <= |entity.value| && (forall i: nat | lo <= i < hi :: HidesRune(rules, entity, i))
    && (lo > 0 ==> !HidesRune(rules, entity, lo - 1)) && !HidesRune(rules, entity, hi)
  }

  /** The cells of a run side by side, on the page of the box; a hairline that is no fraction of a page is widened to
      one unit. */
  function RegionOfARun(m: Members, lo: nat, hi: nat, n: nat): Region
    requires BoxesOf(m) != [] && lo < hi <= n
  {
    var b := ReportedBox(m, 0);
    var left, right := RuneCell(b, lo, n).minX, RuneCell(b, hi - 1, n).maxX;
    var wide := if AreFractions(b) || right - left >= 1.0 then right else left + 1.0;
    Region(PageShown(m, 0),
           Polygon(Point(left, b.minY), Point(wide, b.minY), Point(wide, b.maxY), Point(left, b.maxY)))
  }

  lemma HiddenRunsAreSpans(rules: RuleTable, entity: Entity, lo: nat, hi: nat)
    ensures Span(lo, hi) in MaskedRuneSpans(entity.value, MaskedFor(rules, entity))
            <==> HiddenRun(rules, entity, lo, hi)
  {
    var spans := MaskedRuneSpans(entity.value, MaskedFor(rules, entity));
    assert Separated(spans, |entity.value|) by { SpansRoundTrip(rules(entity.key), entity.value); }
    SpansHoldTheHidden(rules, entity);
    NothingBeyondTheValue(rules, entity);
    hide *;
    SpansAreTheRuns(spans, |entity.value|, lo, hi);
    RunsOfTheHidden(rules, entity, spans, lo, hi);
  }

  lemma RunsOfTheHidden(rules: RuleTable, entity: Entity, spans: seq<Span>, lo: nat, hi: nat)
    requires forall i: nat | i < |entity.value| :: InSome(spans, i) <==> HidesRune(rules, entity, i)
    requires !HidesRune(rules, entity, |entity.value|)
    ensures IsRun(spans, |entity.value|, lo, hi) <==> HiddenRun(rules, entity, lo, hi)
  {
    hide HidesRune, InSome;
  }

  lemma SpansHoldTheHidden(rules: RuleTable, entity: Entity)
    ensures forall i: nat | i < |entity.value| ::
      InSome(MaskedRuneSpans(entity.value, MaskedFor(rules, entity)), i) <==> HidesRune(rules, entity, i)
  {
    var v, masked := entity.value, MaskedFor(rules, entity);
    MaskValueIsAligned(rules(entity.key), v);
    hide MaskValue, MaskedRuneSpans;
    forall i: nat | i < |v|
      ensures InSome(MaskedRuneSpans(v, masked), i) <==> HidesRune(rules, entity, i)
    {
      HiddenIffInASpan(v, masked, MaskedRuneSpans(v, masked), i);
    }
  }

  lemma NothingBeyondTheValue(rules: RuleTable, entity: Entity)
    ensures !HidesRune(rules, entity, |entity.value|)
  {
  }

  lemma HiddenIffInASpan(v: string, masked: string, spans: seq<Span>, i: nat)
    requires |masked| == |v| && i < |v| && spans == MaskedRuneSpans(v, masked)
    requires masked[i] == v[i] || masked[i] == '*'
    ensures InSome(spans, i) <==> masked[i] != v[i]
  {
    RunsAreExact(HiddenMarks(v, masked));
  }

  lemma SpansOfACutBox(rules: RuleTable, m: Members) returns (spans: seq<Span>)
    requires IsCut(rules, m)
    ensures BoxesOf(m) != [] && EntityOf(m).Some? && |RegionsOf(rules, m)| == |spans|
    ensures forall j | 0 <= j < |spans| ::
      && spans[j].start < spans[j].end <= |EntityOf(m).value.value|
      && RegionsOf(rules, m)[j] == RegionOfARun(m, spans[j].start, spans[j].end, |EntityOf(m).value.value|)
    ensures forall lo: nat, hi: nat :: Span(lo, hi) in spans <==> HiddenRun(rules, EntityOf(m).value, lo, hi)
  {
    hide EntityOf, BoxesOf, PageOf, MaskValue;
    var entity := EntityOf(m).value;
    spans := MaskedRuneSpans(entity.value, MaskedFor(rules, entity));
    SpansRoundTrip(rules(entity.key), entity.value);
    RegionsOfOneBox(rules, m);
    CutRegionsAreThoseOfSpans(rules, m, spans);
    hide RegionsOf, RegionsOfBox, IsCut, HiddenRun, RegionOfARun, MaskedRuneSpans, MaskedFor;
    forall lo: nat, hi: nat
      ensures Span(lo, hi) in spans <==> HiddenRun(rules, entity, lo, hi)
    {
      HiddenRunsAreSpans(rules, entity, lo, hi);
    }
  }

  /** The regions of a cut box are exactly those of its runs of hidden runes. */
  lemma RegionsOfACutBox(rules: RuleTable, m: Members, r: Region)
    requires IsCut(rules, m)
    ensures r in RegionsOf(rules, m)
      <==> exists lo: nat, hi: nat :: HiddenRun(rules, EntityOf(m).value, lo, hi)
                                      && r == RegionOfARun(m, lo, hi, |EntityOf(m).value.value|)
  {
    var spans := SpansOfACutBox(rules, m);
    var entity := EntityOf(m).value;
    hide EntityOf, BoxesOf, RegionsOf, RegionOfARun, HidesRune;
    if r in RegionsOf(rules, m) {
      var j :| 0 <= j < |spans| && r == RegionOfARun(m, spans[j].start, spans[j].end, |entity.value|);
      assert Span(spans[j].start, spans[j].end) in spans;
    }
    if lo: nat, hi: nat :| HiddenRun(rules, entity, lo, hi) && r == RegionOfARun(m, lo, hi, |entity.value|) {
      var j :| 0 <= j < |spans| && spans[j] == Span(lo, hi);
      assert r == RegionsOf(rules, m)[j];
    }
  }

  lemma CutRegionsAreThoseOfSpans(rules: RuleTable, m: Members, spans: seq<Span>)
    requires EntityOf(m).Some? && |BoxesOf(m)| == 1 && spans != []
    requires RegionsOf(rules, m) == RegionsOfBox(BoxesOf(m)[0], true, EntityOf(m).value.value, spans, PageOf(m))
    requires Separated(spans, |EntityOf(m).value.value|)
    ensures |RegionsOf(rules, m)| == |spans|
    ensures forall j | 0 <= j < |spans| ::
      && spans[j].start < spans[j].end <= |EntityOf(m).value.value|
      && RegionsOf(rules, m)[j] == RegionOfARun(m, spans[j].start, spans[j].end, |EntityOf(m).value.value|)
  {
    hide EntityOf, BoxesOf, PageOf, RegionsOf, RegionsOfBox, PolygonBounds, SubBox, Corners, RegionOfARun, PageForBox;
    var box, v := BoxesOf(m)[0], EntityOf(m).value.value;
    PartsOfABox(box, v, spans, PageOf(m));
    forall j | 0 <= j < |spans|
      ensures spans[j].start < spans[j].end <= |v|
      ensures RegionsOf(rules, m)[j] == RegionOfARun(m, spans[j].start, spans[j].end, |v|)
    {
      CutIsTheRegionOfARun(m, spans[j], |v|);
    }
  }

  lemma CutIsTheRegionOfARun(m: Members, span: Span, n: nat)
    requires BoxesOf(m) != [] && span.start < span.end <= n
    ensures Region(PageForBox(BoxesOf(m)[0], PageOf(m)), Corners(SubBox(ReportedBox(m, 0), span, n)))
            == RegionOfARun(m, span.start, span.end, n)
  {
    hide BoxesOf, PageOf, PolygonBounds, SubBox, Corners, AreFractions, RuneCell;
    PartOfARun(ReportedBox(m, 0), span, n);
  }

  lemma PartsOfABox(box: ParsedBox, value: string, spans: seq<Span>, entityPage: int)
    requires spans != [] && value != ""
    ensures
      var regions := RegionsOfBox(box, true, value, spans, entityPage);
      && |regions| == |spans|
      && forall j | 0 <= j < |spans| ::
           regions[j] == Region(PageForBox(box, entityPage),
                                Corners(SubBox(PolygonBounds(box.polygon), spans[j], |value|)))
  {
    hide SubBox, PolygonBounds, Corners, PageForBox;
  }

  lemma PartOfARun(b: Box, span: Span, n: nat)
    requires Proper(b) && span.start < span.end <= n
    ensures
      var left, right := RuneCell(b, span.start, n).minX, RuneCell(b, span.end - 1, n).maxX;
      var wide := if AreFractions(b) || right - left >= 1.0 then right else left + 1.0;
      Corners(SubBox(b, span, n))
      == Polygon(Point(left, b.minY), Point(wide, b.minY), Point(wide, b.maxY), Point(left, b.maxY))
  {
    FractionsAreNormalized(b);
    hide Cut, Normalized, AreFractions;
  }

  /** Every box that is not cut is drawn as it was reported, in the order of the boxes. */
  lemma RegionsOfUncutBoxes(rules: RuleTable, m: Members)
    requires EntityOf(m).Some? && !IsCut(rules, m)
    ensures RegionsOf(rules, m) == seq(|BoxesOf(m)|, k requires 0 <= k < |BoxesOf(m)| =>
                                         Region(PageShown(m, k), BoxesOf(m)[k].polygon))
  {
    hide EntityOf, BoxesOf, PageOf, MaskValue;
    var entity, boxes := EntityOf(m).value, BoxesOf(m);
    var spans := MaskedRuneSpans(entity.value, MaskedFor(rules, entity));
    if |boxes| == 1 {
      SpansRoundTrip(rules(entity.key), entity.value);
      RegionsOfOneBox(rules, m);
    } else {
      WholeBoxes(m, |boxes|, entity.value, spans);
    }
  }

  lemma {:induction false} WholeBoxes(m: Members, n: nat, value: string, spans: seq<Span>)
    requires n <= |BoxesOf(m)|
    ensures RegionsOfBoxes(BoxesOf(m), n, false, value, spans, PageOf(m))
            == seq(n, k requires 0 <= k < n => Region(PageShown(m, k), BoxesOf(m)[k].polygon))
  {
    hide BoxesOf, PageOf;
    if n > 0 {
      WholeBoxes(m, n - 1, value, spans);
    }
  }

  // ----- images -----

  /** Every pixel of the picture that shares area with the box is black. */
  predicate BlackWhere(dst: Picture, area: Box)
    requires dst.Valid()
  {
    forall y, x | 0 <= y < dst.height && 0 <= x < dst.width && Overlaps(area, x, y) ::
      dst.rows[y][x].r == 0 && dst.rows[y][x].g == 0 && dst.rows[y][x].b == 0 && dst.rows[y][x].a == 255
  }

  function OnPage(b: Box, area: Box, api: Option<PageSize>, size: PageSize): Box {
    Scaled(area, Scale(b, api, size))
  }

  lemma WhereItLands(b: Box, part: Box, api: Option<PageSize>, size: PageSize, area: Box)
    requires Proper(b)
    ensures LandsOn(b, part, api, size, area) <==> area == OnPage(b, part, api, size)
  {
    LandsOnIff(b, part, api, size, area);
  }

  /** Nothing that has to be hidden about this object can be seen in the picture, wherever it lands. */
  ghost predicate ImageHides(rules: RuleTable, m: Members, dst: Picture, api: Option<PageSize>)
    requires dst.Valid()
  {
    EntityOf(m).Some? ==>
      if IsCut(rules, m) then
        var b, n := ReportedBox(m, 0), |EntityOf(m).value.value|;
        forall i, area | 0 <= i < n && HidesRune(rules, EntityOf(m).value, i)
          && LandsOn(b, RuneCell(b, i, n), api, dst.Size(), area) && MustBeHidden(b, area, dst.Size()) ::
          BlackWhere(dst, area)
      else
        forall k, area | 0 <= k < |BoxesOf(m)|
          && LandsOn(ReportedBox(m, k), ReportedBox(m, k), api, dst.Size(), area) :: BlackWhere(dst, area)
  }

  lemma PlacedAreaIsBlack(src: Picture, regions: seq<Region>, api: Option<PageSize>, r: Region, area: Box)
    requires src.Valid() && MaskedPicture(src, regions, api).Ok? && r in regions
    requires PlaceRegion(r, api, src.Size()).Ok? ==>
      Within(Clip(area, src.Size()), PlaceRegion(r, api, src.Size()).value)
    ensures MaskedPicture(src, regions, api).value.Valid()
    ensures BlackWhere(MaskedPicture(src, regions, api).value, area)
  {
    hide PlaceRegion;
    var dst := MaskedPicture(src, regions, api).value;
    var j :| 0 <= j < |regions| && regions[j] == r;
    forall y, x | 0 <= y < dst.height && 0 <= x < dst.width && Overlaps(area, x, y)
      ensures dst.rows[y][x] == BLACK
    {
      TouchedPixelsAreBlack(src, regions, api, j, x, y);
    }
  }

  lemma CutBoxIsHidden(rules: RuleTable, m: Members, i: nat, src: Picture, regions: seq<Region>, api: Option<PageSize>)
    requires src.Valid() && MaskedPicture(src, regions, api).Ok?
    requires forall r | r in RegionsOf(rules, m) :: r in regions
    requires IsCut(rules, m) && HidesRune(rules, EntityOf(m).value, i)
    requires MustBeCovered(ReportedBox(m, 0), i, |EntityOf(m).value.value|, api, src.Size())
    ensures MaskedPicture(src, regions, api).value.Valid()
    ensures BlackWhere(MaskedPicture(src, regions, api).value,
                       OnPage(ReportedBox(m, 0), RuneCell(ReportedBox(m, 0), i, |EntityOf(m).value.value|), api,
                         src.Size()))
  {
    var b, n := ReportedBox(m, 0), |EntityOf(m).value.value|;
    var r, span := HiddenRuneHasARegion(rules, m, i);
    hide EntityOf, BoxesOf, PageOf, PolygonBounds, SubBox, RuneCell, RegionsOf, PlaceRegion, MaskedPicture, Clip,
         Scaled, Scale, MustBeCovered;
    if PlaceRegion(r, api, src.Size()).Ok? {
      WhatMustBeCoveredIs(b, span, n, i, r.page, api, src.Size());
    }
    PlacedAreaIsBlack(src, regions, api, r, OnPage(b, RuneCell(b, i, n), api, src.Size()));
  }

  lemma WholeBoxIsHidden(rules: RuleTable, m: Members, k: nat, src: Picture, regions: seq<Region>,
          api: Option<PageSize>)
    requires src.Valid() && MaskedPicture(src, regions, api).Ok?
    requires forall r | r in RegionsOf(rules, m) :: r in regions
    requires EntityOf(m).Some? && !IsCut(rules, m) && k < |BoxesOf(m)|
    ensures MaskedPicture(src, regions, api).value.Valid()
    ensures BlackWhere(MaskedPicture(src, regions, api).value,
      OnPage(ReportedBox(m, k), ReportedBox(m, k), api, src.Size()))
  {
    var r := WholeBoxHasARegion(rules, m, k);
    hide EntityOf, BoxesOf, PageOf, PolygonBounds, RegionsOf, PlaceRegion, MaskedPicture, Clip, Scaled, Scale;
    var b := ReportedBox(m, k);
    if PlaceRegion(r, api, src.Size()).Ok? {
      PlacedRegionCoversItsBox(r, api, src.Size());
    }
    PlacedAreaIsBlack(src, regions, api, r, OnPage(b, b, api, src.Size()));
  }

  /** A masked image hides every entity of the answer: each hidden rune of a cut box, and every other box in full. */
  lemma MaskedImageHidesTheTree(rules: RuleTable, tree: Json, trail: seq<Members>, src: Picture, api: Option<PageSize>,
          m: Members)
    requires TrailOf(trail, tree) && m in Objects(tree)
    requires src.Valid() && MaskedPicture(src, RegionsAlong(rules, trail), api).Ok?
    ensures MaskedPicture(src, RegionsAlong(rules, trail), api).value.Valid()
    ensures ImageHides(rules, m, MaskedPicture(src, RegionsAlong(rules, trail), api).value, api)
  {
    TrailMembers(trail, tree);
    var regions := RegionsAlong(rules, trail);
    var dst := MaskedPicture(src, regions, api).value;
    assert dst.Valid() && dst.Size() == src.Size();
    hide EntityOf, BoxesOf, PageOf, PolygonBounds, RegionsAlong, RegionsOf, RuneCell, MaskedPicture, BlackWhere,
         OnPage, MustBeCovered, MustBeHidden, LandsOn, MaskValue;
    forall r | r in RegionsOf(rules, m)
      ensures r in regions
    {
      RegionsAlongHave(rules, trail, r);
    }
    if IsCut(rules, m) {
      var n := |EntityOf(m).value.value|;
      var b := ReportedBox(m, 0);
      forall i, area | 0 <= i < n && HidesRune(rules, EntityOf(m).value, i)
                       && LandsOn(b, RuneCell(b, i, n), api, dst.Size(), area) && MustBeHidden(b, area, dst.Size())
        ensures BlackWhere(dst, area)
      {
        WhereItLands(b, RuneCell(b, i, n), api, dst.Size(), area);
        CutBoxIsHidden(rules, m, i, src, regions, api);
      }
    } else if EntityOf(m).Some? {
      forall k, area | 0 <= k < |BoxesOf(m)|
                       && LandsOn(ReportedBox(m, k), ReportedBox(m, k), api, dst.Size(), area)
        ensures BlackWhere(dst, area)
      {
        WhereItLands(ReportedBox(m, k), ReportedBox(m, k), api, dst.Size(), area);
        WholeBoxIsHidden(rules, m, k, src, regions, api);
      }
    }
  }

  /** No region of the answer reaches this pixel. */
  ghost predicate OutsideTheAnswer(rules: RuleTable, tree: Json, src: Picture, api: Option<PageSize>, x: int, y: int) {
    forall m, r | m in Objects(tree) && r in RegionsOf(rules, m) && PlaceRegion(r, api, src.Size()).Ok? ::
      !Overlaps(PlaceRegion(r, api, src.Size()).value, x, y)
  }

  /** The picture differs from its source only where a region of the answer is drawn. */
  ghost predicate KeepsTheRest(rules: RuleTable, tree: Json, src: Picture, dst: Picture, api: Option<PageSize>)
    requires src.Valid() && dst.Valid()
  {
    && dst.width == src.width && dst.height == src.height
    && forall y, x | 0 <= y < src.height && 0 <= x < src.width && OutsideTheAnswer(rules, tree, src, api, x, y) ::
         dst.rows[y][x] == src.rows[y][x]
  }

  /** A masked image keeps every pixel that no region of the answer reaches. */
  lemma MaskedImageKeepsTheRest(rules: RuleTable, tree: Json, trail: seq<Members>, src: Picture, api: Option<PageSize>)
    requires TrailOf(trail, tree)
    requires src.Valid() && MaskedPicture(src, RegionsAlong(rules, trail), api).Ok?
    ensures MaskedPicture(src, RegionsAlong(rules, trail), api).value.Valid()
    ensures KeepsTheRest(rules, tree, src, MaskedPicture(src, RegionsAlong(rules, trail), api).value, api)
  {
    TrailMembers(trail, tree);
    var regions := RegionsAlong(rules, trail);
    var dst := MaskedPicture(src, regions, api).value;
    assert dst.Valid() && dst.width == src.width && dst.height == src.height;
    hide RegionsAlong, RegionsOf, PlaceRegion, MaskedPicture, TrailOf, Objects;
    forall y, x | 0 <= y < src.height && 0 <= x < src.width && OutsideTheAnswer(rules, tree, src, api, x, y)
      ensures dst.rows[y][x] == src.rows[y][x]
    {
      forall r | r in regions && PlaceRegion(r, api, src.Size()).Ok?
        ensures !Overlaps(PlaceRegion(r, api, src.Size()).value, x, y)
      {
        RegionsAlongHave(rules, trail, r);
      }
      OtherPixelsAreKept(src, regions, api, x, y);
    }
  }

  lemma OneRectangle(src: Picture, region: Region, placed: Box)
    requires src.Valid() && src.width > 0 && src.height > 0
    requires PlaceRegion(region, None, src.Size()) == Ok(placed) && placed.minY >= 1.0
    ensures MaskedPicture(src, [region], None).Ok?
    ensures MaskedPicture(src, [region], None).value.rows[0][0] == src.rows[0][0]
  {
    hide PlaceRegion;
    assert [region][..0] == [];
    assert PlaceAll(src, [], None) == Ok([]);
    assert !Overlaps(placed, 0, 0);
    assert forall r | r in [region] :: r == region;
  }

  // ----- PDF pages -----

  /** Some stamp of the page covers the area, turned to the origin at the bottom left, to 0.005 point. */
  ghost predicate StampedOver(stamps: seq<PageStamp>, page: int, area: Box, target: PageSize) {
    exists j :: 0 <= j < |stamps| && stamps[j].page == page && StampReaches(stamps[j].stamp, Flipped(area, target))
  }

  predicate StampReaches(s: Stamp, area: Box) {
    && s.x - 0.005 <= area.minX && area.maxX <= s.x + s.width as real + 0.005
    && s.y - 0.005 <= area.minY && area.maxY <= s.y + s.height as real + 0.005
  }

  ghost predicate PdfHides(rules: RuleTable, m: Members, stamps: seq<PageStamp>, pages: seq<PageSize>,
          sizes: map<int, PageSize>)
  {
    EntityOf(m).Some? ==> forall k | 0 <= k < |BoxesOf(m)| :: PdfHidesBox(rules, m, k, stamps, pages, sizes)
  }

  ghost predicate PdfHidesBox(rules: RuleTable, m: Members, k: nat, stamps: seq<PageStamp>, pages: seq<PageSize>,
          sizes: map<int, PageSize>)
    requires EntityOf(m).Some? && k < |BoxesOf(m)|
  {
    var page, b := PageShown(m, k), ReportedBox(m, k);
    && 1 <= page <= |pages|
    && var target, api := pages[page - 1], Lookup(sizes, page);
       if IsCut(rules, m) then
         var n := |EntityOf(m).value.value|;
         forall i, area | 0 <= i < n && HidesRune(rules, EntityOf(m).value, i)
           && LandsOn(b, RuneCell(b, i, n), api, target, area) && MustBeHidden(b, area, target) ::
           StampedOver(stamps, page, Clip(area, target), target)
       else forall area | LandsOn(b, b, api, target, area) :: StampedOver(stamps, page, Clip(area, target), target)
  }

  lemma PlacedAreaIsStamped(pages: seq<PageSize>, sizes: map<int, PageSize>, regions: seq<Region>, r: Region, area: Box)
    requires StampAll(pages, sizes, regions).Ok? && r in regions
    requires 1 <= r.page <= |pages| && PlaceRegion(r, Lookup(sizes, r.page), pages[r.page - 1]).Ok? ==>
               Within(area, PlaceRegion(r, Lookup(sizes, r.page), pages[r.page - 1]).value)
    ensures 1 <= r.page <= |pages|
    ensures StampedOver(StampAll(pages, sizes, regions).value, r.page, area, pages[r.page - 1])
  {
    hide StampAll, PlaceRegion, StampsFor;
    EveryRegionIsStamped(pages, sizes, regions);
    var stamps := StampAll(pages, sizes, regions).value;
    var j :| 0 <= j < |regions| && regions[j] == r;
    assert StampFits(pages, sizes, regions[j], stamps[j]);
    var target := pages[r.page - 1];
    var placed := PlaceOnPage(pages, sizes, r).value;
    assert PlaceRegion(r, Lookup(sizes, r.page), target) == Ok(placed);
    PlacedRegionCoversItsBox(r, Lookup(sizes, r.page), target);
    StampCoversTheFlippedBox(placed, target, stamps[j].stamp);
    assert StampReaches(stamps[j].stamp, Flipped(area, target));
  }

  lemma BoxIsStamped(rules: RuleTable, m: Members, k: nat, pages: seq<PageSize>, sizes: map<int, PageSize>,
          regions: seq<Region>)
    requires StampAll(pages, sizes, regions).Ok?
    requires forall r | r in RegionsOf(rules, m) :: r in regions
    requires EntityOf(m).Some? && k < |BoxesOf(m)|
    ensures PdfHidesBox(rules, m, k, StampAll(pages, sizes, regions).value, pages, sizes)
  {
    hide StampAll, PlaceRegion, EntityOf, BoxesOf, PageOf, PolygonBounds, SubBox, RuneCell, RegionsOf, Clip, Scaled,
         Scale, MustBeHidden, LandsOn, MaskValue, StampedOver;
    var page, b, n := PageForBox(BoxesOf(m)[k], PageOf(m)), ReportedBox(m, k), |EntityOf(m).value.value|;
    if IsCut(rules, m) {
      CutHasAHiddenRune(rules, m);
      var first :| 0 <= first < n && HidesRune(rules, EntityOf(m).value, first);
      RuneIsStamped(rules, m, first, pages, sizes, regions);
      var target, api := pages[page - 1], Lookup(sizes, page);
      forall i, area | 0 <= i < n && HidesRune(rules, EntityOf(m).value, i)
                       && LandsOn(b, RuneCell(b, i, n), api, target, area) && MustBeHidden(b, area, target)
        ensures StampedOver(StampAll(pages, sizes, regions).value, page, Clip(area, target), target)
      {
        WhereItLands(b, RuneCell(b, i, n), api, target, area);
        RuneIsStamped(rules, m, i, pages, sizes, regions);
      }
    } else {
      WholeBoxIsStamped(rules, m, k, pages, sizes, regions);
      var target, api := pages[page - 1], Lookup(sizes, page);
      forall area | LandsOn(b, b, api, target, area)
        ensures StampedOver(StampAll(pages, sizes, regions).value, page, Clip(area, target), target)
      {
        WhereItLands(b, b, api, target, area);
      }
    }
  }

  lemma WholeBoxIsStamped(rules: RuleTable, m: Members, k: nat, pages: seq<PageSize>, sizes: map<int, PageSize>,
          regions: seq<Region>)
    requires StampAll(pages, sizes, regions).Ok?
    requires forall r | r in RegionsOf(rules, m) :: r in regions
    requires EntityOf(m).Some? && k < |BoxesOf(m)| && !IsCut(rules, m)
    ensures
      var page, b := PageForBox(BoxesOf(m)[k], PageOf(m)), ReportedBox(m, k);
      && 1 <= page <= |pages|
      && StampedOver(StampAll(pages, sizes, regions).value, page,
                     Clip(OnPage(b, b, Lookup(sizes, page), pages[page - 1]), pages[page - 1]), pages[page - 1])
  {
    hide StampAll, PlaceRegion, EntityOf, BoxesOf, PageOf, PolygonBounds, RegionsOf, Clip, Scaled, Scale, MaskValue,
         StampedOver;
    var page, b := PageForBox(BoxesOf(m)[k], PageOf(m)), ReportedBox(m, k);
    var r := WholeBoxHasARegion(rules, m, k);
    EveryRegionIsStamped(pages, sizes, regions);
    assert PlaceOnPage(pages, sizes, r).Ok?;
    PlacedRegionCoversItsBox(r, Lookup(sizes, r.page), pages[r.page - 1]);
    PlacedAreaIsStamped(pages, sizes, regions, r,
      Clip(OnPage(b, b, Lookup(sizes, page), pages[page - 1]), pages[page - 1]));
  }

  lemma CutHasAHiddenRune(rules: RuleTable, m: Members)
    requires IsCut(rules, m)
    ensures exists i :: 0 <= i < |EntityOf(m).value.value| && HidesRune(rules, EntityOf(m).value, i)
  {
    hide EntityOf, BoxesOf, MaskValue;
    var v, masked := EntityOf(m).value.value, MaskedFor(rules, EntityOf(m).value);
    MaskValueIsAligned(rules(EntityOf(m).value.key), v);
    var i :| 0 <= i < |v| && masked[i] != v[i];
    assert HidesRune(rules, EntityOf(m).value, i);
  }

  lemma RuneIsStamped(rules: RuleTable, m: Members, i: nat, pages: seq<PageSize>, sizes: map<int, PageSize>,
          regions: seq<Region>)
    requires StampAll(pages, sizes, regions).Ok?
    requires forall r | r in RegionsOf(rules, m) :: r in regions
    requires IsCut(rules, m) && HidesRune(rules, EntityOf(m).value, i)
    ensures var page, b := PageForBox(BoxesOf(m)[0], PageOf(m)), ReportedBox(m, 0);
            && 1 <= page <= |pages|
            && (MustBeCovered(b, i, |EntityOf(m).value.value|, Lookup(sizes, page), pages[page - 1]) ==>
                  StampedOver(StampAll(pages, sizes, regions).value, page,
                              Clip(OnPage(b, RuneCell(b, i, |EntityOf(m).value.value|), Lookup(sizes, page),
                                pages[page - 1]), pages[page - 1]),
                              pages[page - 1]))
  {
    hide StampAll, PlaceRegion, EntityOf, BoxesOf, PageOf, PolygonBounds, SubBox, RuneCell, RegionsOf, Clip, Scaled,
         Scale, MustBeCovered, MaskValue, StampedOver;
    var b, n := ReportedBox(m, 0), |EntityOf(m).value.value|;
    var r, span := HiddenRuneHasARegion(rules, m, i);
    EveryRegionIsStamped(pages, sizes, regions);
    assert PlaceOnPage(pages, sizes, r).Ok?;
    var target, api := pages[r.page - 1], Lookup(sizes, r.page);
    if MustBeCovered(b, i, n, api, target) {
      WhatMustBeCoveredIs(b, span, n, i, r.page, api, target);
      PlacedAreaIsStamped(pages, sizes, regions, r, Clip(OnPage(b, RuneCell(b, i, n), api, target), target));
    }
  }

  /** A stamped PDF hides every entity of the answer, up to the printed precision of the stamp offsets. */
  lemma StampedPdfHidesTheTree(rules: RuleTable, tree: Json, trail: seq<Members>, pages: seq<PageSize>,
          sizes: map<int, PageSize>, m: Members)
    requires TrailOf(trail, tree) && m in Objects(tree)
    requires StampAll(pages, sizes, RegionsAlong(rules, trail)).Ok?
    ensures PdfHides(rules, m, StampAll(pages, sizes, RegionsAlong(rules, trail)).value, pages, sizes)
  {
    TrailMembers(trail, tree);
    var regions := RegionsAlong(rules, trail);
    hide EntityOf, BoxesOf, RegionsAlong, RegionsOf, StampAll, PdfHidesBox;
    forall r | r in RegionsOf(rules, m)
      ensures r in regions
    {
      RegionsAlongHave(rules, trail, r);
    }
    if EntityOf(m).Some? {
      forall k | 0 <= k < |BoxesOf(m)|
        ensures PdfHidesBox(rules, m, k, StampAll(pages, sizes, regions).value, pages, sizes)
      {
        BoxIsStamped(rules, m, k, pages, sizes, regions);
      }
    }
  }

  /** Every stamp is that of some region of the answer. */
  ghost predicate StampsOnlyTheAnswer(rules: RuleTable, tree: Json, pages: seq<PageSize>, sizes: map<int, PageSize>,
          stamps: seq<PageStamp>)
  {
    forall j | 0 <= j < |stamps| :: StampsTheAnswer(rules, tree, pages, sizes, stamps[j])
  }

  ghost predicate StampsTheAnswer(rules: RuleTable, tree: Json, pages: seq<PageSize>, sizes: map<int, PageSize>,
          stamp: PageStamp)
  {
    exists m, r :: m in Objects(tree) && r in RegionsOf(rules, m) && StampFits(pages, sizes, r, stamp)
  }

  lemma StampedPdfKeepsTheRest(rules: RuleTable, tree: Json, trail: seq<Members>, pages: seq<PageSize>,
          sizes: map<int, PageSize>)
    requires TrailOf(trail, tree) && StampAll(pages, sizes, RegionsAlong(rules, trail)).Ok?
    ensures StampsOnlyTheAnswer(rules, tree, pages, sizes, StampAll(pages, sizes, RegionsAlong(rules, trail)).value)
  {
    TrailMembers(trail, tree);
    var regions := RegionsAlong(rules, trail);
    var stamps := StampAll(pages, sizes, regions).value;
    EveryRegionIsStamped(pages, sizes, regions);
    hide RegionsAlong, RegionsOf, StampAll, TrailOf, Objects, StampFits;
    forall j | 0 <= j < |stamps|
      ensures StampsTheAnswer(rules, tree, pages, sizes, stamps[j])
    {
      assert StampFits(pages, sizes, regions[j], stamps[j]);
      RegionsAlongHave(rules, trail, regions[j]);
    }
  }
}
