/** For exactly which boxes the coverage theorems hold, seen from whole answers down to the pixels. */
module ExactCoverage {
  import opened Wrappers
  import opened Runes
  import opened RunScan
  import opened MaskPolicy
  import opened Masking
  import opened Geometry
  import opened CutBoxes
  import opened JsonTree
  import opened PlainFields
  import opened Collectors
  import opened Painter
  import opened Coverage

  // ----- an answer with one box and one hidden rune -----

  /** A value of which a full mask hides one rune. */
  function OneLetter(k: nat, n: nat): string {
    seq(n, i => if i == k then 'A' else '*')
  }

  lemma OneLetterIsMasked(k: nat, n: nat)
    requires k < n
    ensures MaskValue(Generic, OneLetter(k, n)) == Stars(n)
    ensures MaskedRuneSpans(OneLetter(k, n), Stars(n)) == [Span(k, k + 1)]
  {
    var v := OneLetter(k, n);
    NothingToTrim(v);
    assert HideVisible(v) == Stars(n);
    assert Stars(n)[k] != v[k];
    assert MaskValue(Generic, v) == Stars(n);
    assert InSome([Span(k, k + 1)], k) by {
      assert [Span(k, k + 1)][0].Has(k);
    }
    SpansAreTheOnlyOnes(Generic, v, [Span(k, k + 1)]);
  }

  function RectangleOf(b: Box): Members {
    Rectangle(b.minX, b.minY, b.maxX - b.minX, b.maxY - b.minY)
  }

  /** A field whose box is given as a rectangle. */
  function BoxedField(key: string, value: string, b: Box): Members {
    map["key" := Str(key, None), "value" := Str(value, None), "boundingBox" := Obj(RectangleOf(b))]
  }

  predicate PlainKey(key: string) {
    key != "" && !IsSpace(key[0]) && !IsSpace(key[|key| - 1])
  }

  lemma BoxedFieldIsRead(key: string, value: string, b: Box)
    requires PlainKey(key) && PlainKey(value)
    ensures
      var m := BoxedField(key, value, b);
      && EntityOf(m) == Some(Entity(key, value)) && PageOf(m) == 0 && BoxesOf(m) == [ParsedBox(Corners(b), 0)]
  {
    ItsMembersAreRead(key, value, b);
    hide EntityOf, RectangleOf, PageOf, Corners, BoxesOf, PlainKey;
    ItsBoxIsRead(BoxedField(key, value, b), b);
  }

  lemma ItsMembersAreRead(key: string, value: string, b: Box)
    requires PlainKey(key) && PlainKey(value)
    ensures
      var m := BoxedField(key, value, b);
      && EntityOf(m) == Some(Entity(key, value)) && PageOf(m) == 0 && "boundingBoxes" !in m
  {
    var m := BoxedField(key, value, b);
    assert m.Keys == {"key", "value", "boundingBox"};
    hide EntityOf, RectangleOf, PageNumber;
    PlainFieldIsRead(m, key, value);
    hide BoxedField, PlainKey;
    NoPageIsGiven(m, PAGE_MEMBERS);
  }

  lemma ItsBoxIsRead(m: Members, b: Box)
    requires "boundingBoxes" !in m && "boundingBox" in m && m["boundingBox"] == Obj(RectangleOf(b))
    ensures BoxesOf(m) == [ParsedBox(Corners(b), 0)]
  {
    var rect := RectangleOf(b);
    RectangleIsRead(b.minX, b.minY, b.maxX - b.minX, b.maxY - b.minY);
    hide Rectangle, Corners, ParseBoxObject;
    assert FirstPresent(m, GEOMETRY_MEMBERS[1..]) == m["boundingBox"];
    assert GeometryCandidate(m) == m["boundingBox"];
    assert ParseUnwrapped(Obj(rect)) == ParseBoxObject(rect);
    assert ParseBoundingBoxes(Obj(rect)) == ParseUnwrapped(Obj(rect));
  }

  lemma {:induction false} NoTextIsGiven(m: Members, keys: seq<string>, trim: bool)
    requires forall k | k in keys :: k !in m
    ensures FirstText(m, keys, trim) == ""
  {
    hide TrimSpace;
    if keys != [] {
      assert FieldValue(Get(m, keys[0])) == "";
      NothingIsLeft();
      NoTextIsGiven(m, keys[1..], trim);
    }
  }

  lemma NothingIsLeft()
    ensures TrimSpace("") == ""
  {
  }

  lemma RectanglesReportNothing(rules: RuleTable, b: Box)
    ensures RegionsOf(rules, RectangleOf(b)) == []
  {
    var rect := RectangleOf(b);
    assert rect.Keys == {"x", "y", "w", "h"};
    hide FirstText, RectangleOf, BoxesOf;
    NoTextIsGiven(rect, VALUE_MEMBERS, false);
    assert EntityOf(rect) == None;
  }

  lemma ObjectsOfABoxedField(key: string, value: string, b: Box)
    ensures TrailOf([BoxedField(key, value, b), RectangleOf(b)], Obj(BoxedField(key, value, b)))
  {
    var m, rect := BoxedField(key, value, b), RectangleOf(b);
    var j := Obj(m);
    assert m.Keys == {"key", "value", "boundingBox"} && m["boundingBox"] == Obj(rect);
    assert IsScalar(m["key"]) && IsScalar(m["value"]);
    RectanglesAreLeaves(b);
    hide BoxedField, RectangleOf, Objects, ObjectsOfMembers;
    AnyMemberFirst(j, m.Keys, "boundingBox");
    NoObjectsInScalars(j, m.Keys - {"boundingBox"});
    OneObjectMore(j);
    assert [m, rect] == [m] + [rect];
  }

  lemma OneObjectMore(j: Json)
    requires j.Obj?
    ensures Objects(j) == multiset{j.members} + ObjectsOfMembers(j, j.members.Keys)
  {
  }

  lemma RectanglesAreLeaves(b: Box)
    ensures Objects(Obj(RectangleOf(b))) == multiset{RectangleOf(b)}
  {
    ObjectsOfALeaf(Obj(RectangleOf(b)));
  }

  lemma RegionOfABoxedField(rules: RuleTable, key: string, b: Box, k: nat, n: nat)
    requires PlainKey(key) && rules(key) == Generic && k < n && Proper(b)
    ensures
      var m := BoxedField(key, OneLetter(k, n), b);
      && IsCut(rules, m) && EntityOf(m) == Some(Entity(key, OneLetter(k, n))) && ReportedBox(m, 0) == b
      && HidesRune(rules, EntityOf(m).value, k) && |OneLetter(k, n)| == n
      && RegionsOf(rules, m) == [PartRegion(b, Span(k, k + 1), n, 1)]
  {
    var v := OneLetter(k, n);
    assert PlainKey(v) && |v| == n && v[k] != Stars(n)[k];
    OneLetterIsMasked(k, n);
    BoundsOfCorners(b);
    hide EntityOf, BoxesOf, PageOf, BoxedField, MaskValue, MaskedRuneSpans, SubBox, PolygonBounds, Corners, OneLetter,
         RegionsOf, PlainKey;
    BoxedFieldIsRead(key, v, b);
    RegionsOfOneBox(rules, BoxedField(key, v, b));
  }

  lemma RegionsOfTwo(rules: RuleTable, a: Members, b: Members)
    ensures RegionsAlong(rules, [a, b]) == RegionsOf(rules, a) + RegionsOf(rules, b)
  {
    hide RegionsOf, RegionsAlong;
    RegionsAlongFirst(rules, a, [b]);
    RegionsAlongFirst(rules, b, []);
    assert [a, b] == [a] + [b] && [b] + [] == [b];
    NothingAlong(rules);
  }

  // ----- the picture of it -----

  function White(width: nat, height: nat): (src: Picture)
    ensures src.Valid()
  {
    Picture(0, 0, width, height, seq(height, y => seq(width, x => Rgba(255, 255, 255, 255))))
  }

  /** A region drawn right of the first pixel column leaves that column white. */
  lemma FirstColumnStaysWhite(width: nat, height: nat, region: Region, y: nat)
    requires width > 0 && y < height && PlaceRegion(region, None, White(width, height).Size()).Ok?
    requires PlaceRegion(region, None, White(width, height).Size()).value.minX >= 1.0
    ensures MaskedPicture(White(width, height), [region], None).Ok?
    ensures MaskedPicture(White(width, height), [region], None).value.Valid()
    ensures MaskedPicture(White(width, height), [region], None).value.height == height
    ensures MaskedPicture(White(width, height), [region], None).value.width == width
    ensures MaskedPicture(White(width, height), [region], None).value.rows[y][0] != BLACK
  {
    hide PlaceRegion;
    var src := White(width, height);
    PlacedRects(src, [region], None);
    OtherPixelsAreKept(src, [region], None, 0, y);
  }

  /** The pixel of the first column where an area comes into sight. */
  lemma FirstPixelInSight(area: Box, target: PageSize) returns (y: nat)
    requires HasArea(Clip(area, target)) && Clip(area, target).minX < 1.0
    ensures y as real < target.height && Overlaps(area, 0, y)
  {
    y := Max(area.minY, 0.0).Floor;
  }

  // ----- exactly when answers hide what they report of a box -----

  /** If the box is cut for this object of the answer and the image is masked, then what is in sight of a hidden rune
      is black. */
  ghost predicate RuneIsBlack(b: Box, rules: RuleTable, tree: Json, trail: seq<Members>, m: Members, i: nat,
          src: Picture, api: Option<PageSize>, area: Box)
  {
    && TrailOf(trail, tree) && m in Objects(tree)
    && IsCut(rules, m) && ReportedBox(m, 0) == b && HidesRune(rules, EntityOf(m).value, i)
    && src.Valid() && MaskedPicture(src, RegionsAlong(rules, trail), api).Ok?
    && LandsOn(b, RuneCell(b, i, |EntityOf(m).value.value|), api, src.Size(), area) && HasArea(Clip(area, src.Size()))
    ==>
      var dst := MaskedPicture(src, RegionsAlong(rules, trail), api).value;
      dst.Valid() && BlackWhere(dst, area)
  }

  ghost predicate AnswersHideTheBox(rules: RuleTable, b: Box) {
    forall tree, trail, m, i: nat, src, api, area :: RuneIsBlack(b, rules, tree, trail, m, i, src, api, area)
  }

  lemma CoverableBoxesAreHidden(b: Box, rules: RuleTable, tree: Json, trail: seq<Members>, m: Members, i: nat,
          src: Picture, api: Option<PageSize>, area: Box)
    requires Coverable(b)
    ensures RuneIsBlack(b, rules, tree, trail, m, i, src, api, area)
  {
    hide Coverable, RegionsAlong, TrailOf, Objects, MaskedPicture, BlackWhere, LandsOn, RuneCell, Clip, EntityOf,
         BoxesOf, MaskValue;
    if TrailOf(trail, tree) && m in Objects(tree) && src.Valid()
      && MaskedPicture(src, RegionsAlong(rules, trail), api).Ok?
    {
      MaskedImageHidesTheTree(rules, tree, trail, src, api, m);
      MaskedPictureKeepsSize(src, RegionsAlong(rules, trail), api);
    }
  }

  lemma MaskedPictureKeepsSize(src: Picture, regions: seq<Region>, api: Option<PageSize>)
    requires src.Valid() && MaskedPicture(src, regions, api).Ok?
    ensures MaskedPicture(src, regions, api).value.Size() == src.Size()
  {
  }

  /** An object whose one region is drawn right of the first pixel column, where its hidden rune is in sight. */
  lemma ARuneStaysWhite(rules: RuleTable, b: Box, tree: Json, trail: seq<Members>, m: Members, k: nat, width: nat,
          height: nat, region: Region)
    requires width > 0 && TrailOf(trail, tree) && m in Objects(tree)
    requires IsCut(rules, m) && ReportedBox(m, 0) == b && HidesRune(rules, EntityOf(m).value, k)
    requires RegionsAlong(rules, trail) == [region]
    requires PlaceRegion(region, None, White(width, height).Size()).Ok?
    requires PlaceRegion(region, None, White(width, height).Size()).value.minX >= 1.0
    requires
      var cell := VisibleCell(b, k, |EntityOf(m).value.value|, None, White(width, height).Size());
      cell.minX < 1.0 && HasArea(cell)
    ensures !AnswersHideTheBox(rules, b)
  {
    var src, n := White(width, height), |EntityOf(m).value.value|;
    hide RegionsAlong, MaskedPicture, RuneCell, EntityOf, BoxesOf, MaskValue, IsCut, HidesRune, PlaceRegion, Scale,
         Scaled, Clip, Objects, TrailOf, ReportedBox, LandsOn;
    var area := OnPage(b, RuneCell(b, k, n), None, src.Size());
    WhereItLands(b, RuneCell(b, k, n), None, src.Size(), area);
    var y := FirstPixelInSight(area, src.Size());
    FirstColumnStaysWhite(width, height, region, y);
    assert !RuneIsBlack(b, rules, tree, trail, m, k, src, None, area);
  }

  lemma TheRuneStaysWhite(rules: RuleTable, b: Box, key: string, k: nat, n: nat, width: nat, height: nat)
    requires PlainKey(key) && rules(key) == Generic && k < n && Proper(b) && width > 0
    requires
      var target, region := White(width, height).Size(), PartRegion(b, Span(k, k + 1), n, 1);
      && PlaceRegion(region, None, target).Ok? && PlaceRegion(region, None, target).value.minX >= 1.0
      && VisibleCell(b, k, n, None, target).minX < 1.0 && HasArea(VisibleCell(b, k, n, None, target))
    ensures !AnswersHideTheBox(rules, b)
  {
    hide *;
    var value := OneLetter(k, n);
    var m, rect := BoxedField(key, value, b), RectangleOf(b);
    ObjectsOfABoxedField(key, value, b);
    TrailMembers([m, rect], Obj(m));
    assert [m, rect][0] == m;
    RegionOfABoxedField(rules, key, b, k, n);
    RegionsOfTwo(rules, m, rect);
    RectanglesReportNothing(rules, b);
    ARuneStaysWhite(rules, b, Obj(m), [m, rect], m, k, width, height, PartRegion(b, Span(k, k + 1), n, 1));
  }

  lemma SizeOfWhite(target: PageSize) returns (width: nat, height: nat)
    requires target.width > 0.0 && target.height > 0.0
    requires target.width == target.width.Floor as real && target.height == target.height.Floor as real
    ensures width > 0 && White(width, height).Size() == target
  {
    width, height := target.width.Floor, target.height.Floor;
  }

  /** For every other box there is an answer that reports it, and an image on which a rune it hides stays white. */
  lemma OtherBoxesStayInSight(rules: RuleTable, b: Box, key: string)
    requires Proper(b) && !Coverable(b) && PlainKey(key) && rules(key) == Generic
    ensures !AnswersHideTheBox(rules, b)
  {
    hide Coverable, PartRegion, White, VisibleCell, AnswersHideTheBox, PlainKey;
    var k, n, target := OtherBoxesUncoverARune(b);
    assert target.width > 0.0 && target.height > 0.0;
    hide PlaceRegion;
    var width, height := SizeOfWhite(target);
    TheRuneStaysWhite(rules, b, key, k, n, width, height);
  }

  /** Under a table that masks some key in full: whatever the answer, the value, the reported sizes and the image, a
      masked image hides what is in sight of the hidden runes of a box iff the box is coverable. */
  lemma AnswersHideTheBoxIff(rules: RuleTable, b: Box, key: string)
    requires Proper(b) && PlainKey(key) && rules(key) == Generic
    ensures AnswersHideTheBox(rules, b) <==> Coverable(b)
  {
    hide Coverable, RuneIsBlack;
    if Coverable(b) {
      forall tree, trail, m, i: nat, src, api, area
        ensures RuneIsBlack(b, rules, tree, trail, m, i, src, api, area)
      {
        CoverableBoxesAreHidden(b, rules, tree, trail, m, i, src, api, area);
      }
    } else {
      OtherBoxesStayInSight(rules, b, key);
    }
  }
}
