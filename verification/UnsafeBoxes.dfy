/** An answer for which the coverage of a cut box fails: its box is not unit-safe, and a hidden rune stays readable. */
module UnsafeBoxes {
  import opened Wrappers
  import opened Runes
  import opened RunScan
  import opened MaskPolicy
  import opened Masking
  import opened Geometry
  import opened JsonTree
  import opened PlainFields
  import opened Collectors
  import opened Painter
  import opened Coverage

  /** A two-rune value in a box of 2 x 0.4 pixels that starts at (0, 0.6). */
  function NarrowField(): Members {
    RectangleField("memo", "A*", "{\"x\":0,\"y\":0.6,\"w\":2,\"h\":0.4}", Rectangle(0.0, 0.6, 2.0, 0.4))
  }

  const NARROW := Box(0.0, 0.6, 2.0, 1.0)

  lemma NarrowFieldIsRead()
    ensures EntityOf(NarrowField()) == Some(Entity("memo", "A*")) && PageOf(NarrowField()) == 0
    ensures BoxesOf(NarrowField()) == [ParsedBox(Corners(NARROW), 0)]
  {
    hide EntityOf, BoxesOf, PageOf, RectangleField, Rectangle, Corners;
    RectangleFieldIsRead("memo", "A*", "{\"x\":0,\"y\":0.6,\"w\":2,\"h\":0.4}", 0.0, 0.6, 2.0, 0.4);
  }

  lemma NarrowValueIsMasked()
    ensures MaskValue(Generic, "A*") == "**"
    ensures MaskedRuneSpans("A*", "**") == [Span(0, 1)]
  {
    var v := "A*";
    NothingToTrim(v);
    assert HideVisible(v) == "**";
    SpansAreTheOnlyOnes(Generic, v, [Span(0, 1)]) by {
      assert MaskValue(Generic, v) == "**";
      assert [Span(0, 1)][0].Has(0);
    }
  }

  /** The region of this field covers page fractions instead of the first pixel of its box. */
  lemma NarrowRegions(rules: RuleTable)
    requires rules("memo") == Generic
    ensures RegionsOf(rules, NarrowField()) == [Region(1, Corners(SubBox(NARROW, Span(0, 1), 2)))]
    ensures HidesRune(rules, Entity("memo", "A*"), 0) && IsCut(rules, NarrowField())
  {
    NarrowFieldIsRead();
    NarrowValueIsMasked();
    BoundsOfCorners(NARROW);
    hide EntityOf, BoxesOf, PageOf, NarrowField, MaskValue, MaskedRuneSpans, SubBox, PolygonBounds, Corners;
    RegionsOfOneBox(rules, NarrowField());
  }

  lemma NarrowBoxIsPlacedElsewhere()
    ensures !UnitSafe(NARROW)
    ensures PlaceRegion(Region(1, Corners(SubBox(NARROW, Span(0, 1), 2))), None, PageSize(100.0, 100.0)) ==
      Ok(Box(0.0, 60.0, 100.0, 100.0))
    ensures Scaled(RuneCell(NARROW, 0, 2), Scale(NARROW, None, PageSize(100.0, 100.0))) == Box(0.0, 0.6, 1.0, 1.0)
  {
    assert Cut(NARROW, 0, 2) == 0.0 && Cut(NARROW, 1, 2) == 1.0;
    BoundsOfCorners(SubBox(NARROW, Span(0, 1), 2));
  }

  /** For an answer with just this field, under a table that masks it in full, the first rune is hidden in the
      masked value and its pixel keeps its colour in the masked picture of every 100 x 100 image. */
  lemma AnAnswerLeavesARuneReadable(rules: RuleTable, src: Picture, trail: seq<Members>)
    requires rules("memo") == Generic
    requires src.Valid() && src.minX == 0 && src.minY == 0 && src.width == 100 && src.height == 100
    requires TrailOf(trail, Obj(NarrowField()))
    ensures EntityOf(NarrowField()) == Some(Entity("memo", "A*")) && HidesRune(rules, Entity("memo", "A*"), 0)
    ensures
      var masked := MaskedPicture(src, RegionsAlong(rules, trail), None);
      && LandsOn(NARROW, RuneCell(NARROW, 0, 2), None, src.Size(), Box(0.0, 0.6, 1.0, 1.0))
      && Overlaps(Box(0.0, 0.6, 1.0, 1.0), 0, 0)
      && masked.Ok? && masked.value.rows[0][0] == src.rows[0][0]
  {
    var m := NarrowField();
    ObjectsOfALeaf(Obj(m));
    NarrowFieldIsRead();
    NarrowRegions(rules);
    NarrowBoxIsPlacedElsewhere();
    assert src.Size() == PageSize(100.0, 100.0);
    WhereItLands(NARROW, RuneCell(NARROW, 0, 2), None, src.Size(), Box(0.0, 0.6, 1.0, 1.0));
    hide NarrowField, EntityOf, RegionsOf, SubBox, RuneCell, Scale, Scaled, PlaceRegion, UnitSafe, MaskedPicture,
         Corners, HidesRune;
    OnlyOrder(trail, m);
    assert [m][..0] == [];
    assert RegionsAlong(rules, trail) == RegionsOf(rules, m);
    OneRectangle(src, Region(1, Corners(SubBox(NARROW, Span(0, 1), 2))), Box(0.0, 60.0, 100.0, 100.0));
  }

  lemma OnlyOrder<T>(s: seq<T>, x: T)
    requires multiset(s) == multiset{x}
    ensures s == [x]
  {
    assert |multiset(s)| == 1;
    assert s[0] in multiset(s);
  }
}
