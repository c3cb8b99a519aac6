/** Exactly which reported boxes can be cut by runes without leaving a hidden rune in sight. */
module CutBoxes {
  import opened Wrappers
  import opened RealMath
  import opened RunScan
  import opened Geometry

  predicate HasArea(b: Box) {
    b.minX < b.maxX && b.minY < b.maxY
  }

  /** No cell of the box is ever in sight, or no part of it can be taken for page fractions and still be placed. */
  predicate NothingToUncover(b: Box) {
    b.maxX <= 0.0 || b.maxY <= 0.0 || b.minY == b.maxY || b.minY >= 1.0
  }

  /** A condition on the reported box alone. */
  predicate Coverable(b: Box) {
    UnitSafe(b) || NothingToUncover(b)
  }

  function PartRegion(b: Box, span: Span, n: nat, page: int): Region
    requires n > 0
  {
    Region(page, Corners(SubBox(b, span, n)))
  }

  /** What is in sight of a rune on its page. */
  function VisibleCell(b: Box, i: nat, n: nat, api: Option<PageSize>, target: PageSize): Box
    requires i < n
  {
    Clip(Scaled(RuneCell(b, i, n), Scale(b, api, target)), target)
  }

  /** If the part of the span is drawn at all, it covers what is in sight of the rune. */
  predicate RuneIsCovered(b: Box, span: Span, n: nat, i: nat, page: int, api: Option<PageSize>, target: PageSize)
    requires span.Has(i) && span.end <= n
  {
    var placed := PlaceRegion(PartRegion(b, span, n, page), api, target);
    var cell := VisibleCell(b, i, n, api, target);
    placed.Ok? && HasArea(cell) ==> Within(cell, placed.value)
  }

  // ---------------------------------------------------------------- coverable boxes are covered

  lemma OutOfSight(cell: Box, scale: (real, real), target: PageSize)
    requires scale.0 >= 0.0 && scale.1 >= 0.0 && (cell.maxX <= 0.0 || cell.maxY <= 0.0 || cell.minY == cell.maxY)
    ensures !HasArea(Clip(Scaled(cell, scale), target))
  {
    if cell.maxX <= 0.0 {
      MulMonotone(cell.maxX, 0.0, scale.0);
    } else if cell.maxY <= 0.0 {
      MulMonotone(cell.maxY, 0.0, scale.1);
    }
  }

  lemma CellsAreOutOfSight(b: Box, i: nat, n: nat, api: Option<PageSize>, target: PageSize)
    requires Proper(b) && i < n && Usable(target) && (b.maxX <= 0.0 || b.maxY <= 0.0 || b.minY == b.maxY)
    ensures !HasArea(VisibleCell(b, i, n, api, target))
  {
    ScaleIsNonNegative(b, api, target);
    CutIsMonotone(b, i, i + 1, n);
    hide Cut, Scale, Scaled, Clip;
    OutOfSight(RuneCell(b, i, n), Scale(b, api, target), target);
  }

  /** A part whose reading differs from that of its box is a part in the unit square of a box that is not. */
  lemma OnlyPartsBecomeFractions(b: Box, span: Span, n: nat)
    requires Proper(b) && span.start < span.end <= n && !KeepsUnits(b, span, n) && b.maxX > 0.0 && b.maxY > 0.0
    ensures !Normalized(b) && Normalized(SubBox(b, span, n))
  {
    CutIsMonotone(b, span.start, span.end, n);
    hide Cut;
  }

  /** Where page fractions go before hairlines are widened. */
  function OnThePage(part: Box, target: PageSize): Box {
    Clip(Scaled(part, (target.width, target.height)), target)
  }

  lemma FractionsArePlaced(part: Box, page: int, api: Option<PageSize>, target: PageSize)
    requires Proper(part) && Normalized(part) && Usable(target)
    ensures
      var placed, clipped := PlaceRegion(Region(page, Corners(part)), api, target), OnThePage(part, target);
      if clipped.maxX - clipped.minX < MIN_PLACED_SIZE || clipped.maxY - clipped.minY < MIN_PLACED_SIZE
      then placed.Err? else placed == Ok(WidenY(WidenX(clipped, target), target))
  {
    BoundsOfCorners(part);
    hide PolygonBounds, Corners, Scaled, Clip, WidenX, WidenY, Normalized;
  }

  /** Page fractions that start below the page cannot be placed. */
  lemma FractionsBelowThePage(part: Box, page: int, api: Option<PageSize>, target: PageSize)
    requires Proper(part) && Normalized(part) && part.minY >= 1.0 && Usable(target)
    ensures PlaceRegion(Region(page, Corners(part)), api, target).Err?
  {
    FractionsArePlaced(part, page, api, target);
    OnThePageInProducts(part, target);
    hide PlaceRegion, Corners, Normalized, WidenX, WidenY, OnThePage, Times;
    TimesUnits(target.height);
    TimesMonotone(1.0, part.minY, target.height);
  }

  lemma OnThePageInProducts(part: Box, target: PageSize)
    ensures
      var w, h := target.width, target.height;
      OnThePage(part, target) == Box(Max(Times(part.minX, w), 0.0), Max(Times(part.minY, h), 0.0),
                                     Min(Times(part.maxX, w), w), Min(Times(part.maxY, h), h))
  {
  }

  lemma CoverableBoxesAreCovered(b: Box, span: Span, n: nat, i: nat, page: int, api: Option<PageSize>, target: PageSize)
    requires Proper(b) && Coverable(b) && span.Has(i) && span.end <= n
    ensures RuneIsCovered(b, span, n, i, page, api, target)
  {
    var part := SubBox(b, span, n);
    SubBoxHoldsTheCell(b, span, n, i);
    if PlaceRegion(PartRegion(b, span, n, page), api, target).Ok? {
      assert Usable(target);
      assert part.minY == b.minY;
      if KeepsUnits(b, span, n) {
        PlacedPartCoversTheRune(b, span, n, i, page, api, target);
      } else if b.maxX <= 0.0 || b.maxY <= 0.0 || b.minY == b.maxY {
        CellsAreOutOfSight(b, i, n, api, target);
      } else {
        if UnitSafe(b) {
          UnitSafeBoxesKeepUnits(b, span, n);
        }
        OnlyPartsBecomeFractions(b, span, n);
        FractionsBelowThePage(part, page, api, target);
      }
    }
    hide SubBox, RuneCell, PlaceRegion, Scale, Scaled, Clip, UnitSafe, Normalized;
  }

  /** An area of a cut box has to be hidden, in sight or not, if the box is unit-safe, and otherwise if any of it is in
      sight and the box is coverable. */
  predicate MustBeHidden(b: Box, area: Box, target: PageSize) {
    UnitSafe(b) || (Coverable(b) && HasArea(Clip(area, target)))
  }

  /** What a drawn part has to cover of a rune is its cell, if that has to be hidden. */
  predicate MustBeCovered(b: Box, i: nat, n: nat, api: Option<PageSize>, target: PageSize)
    requires i < n
  {
    MustBeHidden(b, Scaled(RuneCell(b, i, n), Scale(b, api, target)), target)
  }

  lemma WhatMustBeCoveredIs(b: Box, span: Span, n: nat, i: nat, page: int, api: Option<PageSize>, target: PageSize)
    requires Proper(b) && span.Has(i) && span.end <= n && MustBeCovered(b, i, n, api, target)
    requires PlaceRegion(PartRegion(b, span, n, page), api, target).Ok?
    ensures Within(VisibleCell(b, i, n, api, target), PlaceRegion(PartRegion(b, span, n, page), api, target).value)
  {
    if UnitSafe(b) {
      PlacedSubBoxCoversTheRune(b, span, n, i, page, api, target);
    } else {
      CoverableBoxesAreCovered(b, span, n, i, page, api, target);
    }
    hide Coverable, UnitSafe, SubBox, RuneCell, PlaceRegion, Scale, Scaled, Clip;
  }

  // ---------------------------------------------------------------- all other boxes are not

  /** A box that reaches into the unit square from its left edge or further left has a cut just right of that edge. */
  lemma CutNearTheEdge(b: Box) returns (k: nat, n: nat)
    requires Proper(b) && b.minX <= SLACK && b.maxX > 0.0 && b.minX < b.maxX
    ensures k < n && 0.0 < Cut(b, k, n) <= SLACK && Cut(b, k, n) < Cut(b, k + 1, n) < Cut(b, k, n) + 1.0
  {
    if b.minX > 0.0 {
      n := FineEnough(b.maxX - b.minX, 1.0);
      k := 0;
      CutEnds(b, n);
      CutDifference(b, 0, 1, n);
      hide Cut, Step, Times;
      TimesUnits(Step(b, n));
    } else {
      var e := Min(SLACK, b.maxX) / 2.0;
      n := FineEnough(b.maxX - b.minX, e);
      CutEnds(b, n);
      var step := Step(b, n);
      assert step < e;
      k := FirstStepFrom(e - b.minX, step);
      CutStep(b, k, n);
      CutDifference(b, k, k + 1, n);
      hide Cut, Step, Times;
      TimesUnits(step);
      if k >= n {
        TimesMonotone(n as real, k as real, step);
      }
    }
  }

  /** The share of the page height on which fractions from minY to maxY are in sight. */
  function Share(b: Box): real {
    Min(b.maxY, 1.0) - Max(b.minY, 0.0)
  }

  lemma PlacedAsFractions(part: Box, page: int, target: PageSize)
    requires Proper(part) && Normalized(part) && 0.0 < part.minX <= 0.5 && part.maxX >= 1.0
    requires target.width >= 4.0 && Times(part.minX, target.width) >= 2.0
    requires target.height > 0.0 && Times(Share(part), target.height) >= 1.0
    ensures PlaceRegion(Region(page, Corners(part)), None, target).Ok?
    ensures PlaceRegion(Region(page, Corners(part)), None, target).value.minX >= 1.0
  {
    var w, h := target.width, target.height;
    FractionsArePlaced(part, page, None, target);
    OnThePageInProducts(part, target);
    assert Times(0.5, w) == w / 2.0;
    hide PlaceRegion, Corners, Normalized, OnThePage, Times;
    TimesUnits(w);
    TimesMonotone(1.0, part.maxX, w);
    TimesMonotone(part.minX, 0.5, w);
    VisibleHeight(part.minY, part.maxY, h);
  }

  lemma VisibleHeight(lo: real, hi: real, h: real)
    requires h > 0.0
    ensures Min(Times(hi, h), h) - Max(Times(lo, h), 0.0) == Times(Min(hi, 1.0) - Max(lo, 0.0), h)
  {
    var bottom, top := Min(hi, 1.0), Max(lo, 0.0);
    hide Times;
    TimesUnits(h);
    TimesAdds(bottom - top, top, h);
    if hi <= 1.0 {
      TimesMonotone(hi, 1.0, h);
    } else {
      TimesMonotone(1.0, hi, h);
    }
    if lo >= 0.0 {
      TimesMonotone(0.0, lo, h);
    } else {
      TimesMonotone(lo, 0.0, h);
    }
  }

  /** A page that shows the part, an exact number of units wide and high. */
  lemma PageFor(x: real, share: real) returns (target: PageSize)
    requires 0.0 < x <= 0.5 && 0.0 < share
    ensures target.width >= 4.0 && Times(x, target.width) >= 2.0
    ensures target.height >= 1.0 && Times(share, target.height) >= 1.0
    ensures target.width == target.width.Floor as real && target.height == target.height.Floor as real
  {
    Quotient(2.0, x);
    Quotient(1.0, share);
    var w, h := CeilingNat(2.0 / x), CeilingNat(1.0 / share);
    assert Times(x, 2.0 / x) == 2.0 && Times(share, 1.0 / share) == 1.0;
    assert Times(2.0 / x, x) == Times(x, 2.0 / x) && Times(1.0 / share, share) == Times(share, 1.0 / share);
    assert Times(w as real, x) == Times(x, w as real) && Times(h as real, share) == Times(share, h as real);
    assert w >= 4 by {
      DivAtLeastFour(x);
    }
    hide Times;
    TimesMonotone(2.0 / x, w as real, x);
    TimesMonotone(1.0 / share, h as real, share);
    target := PageSize(w as real, h as real);
  }

  lemma DivAtLeastFour(x: real)
    requires 0.0 < x <= 0.5
    ensures 2.0 / x >= 4.0
  {
    var q := 2.0 / x;
    assert q * x == 2.0;
    if q < 4.0 {
      MulMonotone(x, 0.5, q);
    }
  }

  lemma WhereOtherBoxesAre(b: Box)
    requires Proper(b) && !Coverable(b)
    ensures !Normalized(b) && b.minX <= SLACK && b.minX < b.maxX && b.maxX > 0.0
    ensures -SLACK <= b.minY < 1.0 && 0.0 < b.maxY <= 1.0 + SLACK && b.minY < b.maxY
  {
  }

  /** The part cut near the left edge is widened to a hairline that reaches over the unit square. */
  lemma PartNearTheEdge(b: Box, k: nat, n: nat)
    requires Proper(b) && !Coverable(b)
    requires k < n && 0.0 < Cut(b, k, n) <= SLACK && Cut(b, k, n) < Cut(b, k + 1, n) < Cut(b, k, n) + 1.0
    ensures SubBox(b, Span(k, k + 1), n) == Box(Cut(b, k, n), b.minY, Cut(b, k, n) + 1.0, b.maxY)
    ensures Normalized(SubBox(b, Span(k, k + 1), n)) && Share(SubBox(b, Span(k, k + 1), n)) > 0.0
  {
    WhereOtherBoxesAre(b);
    hide Cut, Coverable;
  }

  lemma StillInSight(b: Box, k: nat, n: nat, target: PageSize)
    requires Proper(b) && !Coverable(b) && k < n && 0.0 < Cut(b, k, n) < Cut(b, k + 1, n) && Cut(b, k, n) < 1.0
    requires target.width >= 1.0 && target.height >= 1.0
    ensures VisibleCell(b, k, n, None, target).minX < 1.0 && HasArea(VisibleCell(b, k, n, None, target))
  {
    WhereOtherBoxesAre(b);
    assert Scale(b, None, target) == (1.0, 1.0);
    hide Cut, Coverable, Normalized, Scale;
  }

  /** Every other box has a cut whose part is drawn elsewhere on some page, while the cell of its rune stays in
      sight. */
  lemma OtherBoxesUncoverARune(b: Box) returns (k: nat, n: nat, target: PageSize)
    requires Proper(b) && !Coverable(b)
    ensures k < n && target.width == target.width.Floor as real && target.height == target.height.Floor as real
    ensures PlaceRegion(PartRegion(b, Span(k, k + 1), n, 1), None, target).Ok?
    ensures PlaceRegion(PartRegion(b, Span(k, k + 1), n, 1), None, target).value.minX >= 1.0
    ensures VisibleCell(b, k, n, None, target).minX < 1.0 && HasArea(VisibleCell(b, k, n, None, target))
  {
    WhereOtherBoxesAre(b);
    hide Coverable, Normalized, SubBox, Corners, PlaceRegion, Cut, Times, Share, VisibleCell;
    k, n := CutNearTheEdge(b);
    PartNearTheEdge(b, k, n);
    var part := SubBox(b, Span(k, k + 1), n);
    target := PageFor(part.minX, Share(part));
    PlacedAsFractions(part, 1, target);
    StillInSight(b, k, n, target);
  }

  lemma SomeRuneIsUncovered(b: Box) returns (k: nat, n: nat, target: PageSize)
    requires Proper(b) && !Coverable(b)
    ensures k < n && Span(k, k + 1).Has(k) && !RuneIsCovered(b, Span(k, k + 1), n, k, 1, None, target)
  {
    hide Coverable, PlaceRegion, VisibleCell;
    k, n, target := OtherBoxesUncoverARune(b);
  }

  ghost predicate AlwaysCovered(b: Box) {
    forall span: Span, n: nat, i: nat, page: int, api, target | span.Has(i) && span.end <= n ::
      RuneIsCovered(b, span, n, i, page, api, target)
  }

  /** Cut by any value and mask, and drawn on any page, a box always covers what is in sight of its hidden runes
      iff it is coverable. */
  lemma AlwaysCoveredIff(b: Box)
    requires Proper(b)
    ensures AlwaysCovered(b) <==> Coverable(b)
  {
    hide Coverable, RuneIsCovered;
    if Coverable(b) {
      forall span: Span, n: nat, i: nat, page: int, api, target | span.Has(i) && span.end <= n
        ensures RuneIsCovered(b, span, n, i, page, api, target)
      {
        CoverableBoxesAreCovered(b, span, n, i, page, api, target);
      }
    } else {
      var k, n, target := SomeRuneIsUncovered(b);
    }
  }
}
