/** What an endpoint may write, and that it is read back: every accepted name and shape of a box, a page, a key and a
    value, printed and then read. The names are listed in order of precedence. */
module AnswerFormats {
  import opened Wrappers
  import opened Runes
  import opened Geometry
  import opened JsonTree

  // ----- polygons -----

  datatype PointForm = Pair | Named

  datatype PolygonForm = FourPoints(a: PointForm, b: PointForm, c: PointForm, d: PointForm) | EightNumbers

  function PrintPoint(form: PointForm, q: Point): Json {
    match form
    case Pair => Arr([Number(q.x), Number(q.y)])
    case Named => Obj(map["x" := Number(q.x), "y" := Number(q.y)])
  }

  function PrintPolygon(form: PolygonForm, p: Polygon): Json {
    match form
    case FourPoints(a, b, c, d) =>
      Arr([PrintPoint(a, p.a), PrintPoint(b, p.b), PrintPoint(c, p.c), PrintPoint(d, p.d)])
    case EightNumbers =>
      Arr([Number(p.a.x), Number(p.a.y), Number(p.b.x), Number(p.b.y), Number(p.c.x), Number(p.c.y), Number(p.d.x),
           Number(p.d.y)])
  }

  lemma PolygonIsRead(form: PolygonForm, p: Polygon)
    ensures form.FourPoints? ==> ParsePolygonPoints(PrintPolygon(form, p)) == Some(p)
    ensures form.EightNumbers? ==> ParseFlatCoords(PrintPolygon(form, p)) == Some(p)
    ensures form.EightNumbers? ==> ParsePolygonPoints(PrintPolygon(form, p)) == None
  {
    if form.FourPoints? {
      PointIsRead(form.a, p.a);
      PointIsRead(form.b, p.b);
      PointIsRead(form.c, p.c);
      PointIsRead(form.d, p.d);
      hide PrintPoint, ParsePoint;
    }
  }

  lemma PointIsRead(form: PointForm, q: Point)
    ensures ParsePoint(PrintPoint(form, q)) == Some(q)
  {
  }

  /** A point is two numbers in a list, or two numbers named x and y; nothing else is read as one. */
  predicate WritesPoint(j: Json, q: Point) {
    || j == Arr([Number(q.x), Number(q.y)])
    || (j.Obj? && "x" in j.members && j.members["x"] == Number(q.x)
        && "y" in j.members && j.members["y"] == Number(q.y))
  }

  lemma PointIsReadIff(j: Json, q: Point)
    ensures ParsePoint(j) == Some(q) <==> WritesPoint(j, q)
  {
    if j.Arr? && |j.items| == 2 {
      assert j.items == [j.items[0], j.items[1]];
    }
  }

  lemma PolygonIsReadIff(j: Json, p: Polygon)
    ensures ParsePolygonPoints(j) == Some(p)
      <==> j.Arr? && |j.items| == 4 && WritesPoint(j.items[0], p.a) && WritesPoint(j.items[1], p.b)
           && WritesPoint(j.items[2], p.c) && WritesPoint(j.items[3], p.d)
    ensures ParseFlatCoords(j) == Some(p) <==> j == PrintPolygon(EightNumbers, p)
  {
    if j.Arr? && |j.items| == 4 {
      PointIsReadIff(j.items[0], p.a);
      PointIsReadIff(j.items[1], p.b);
      PointIsReadIff(j.items[2], p.c);
      PointIsReadIff(j.items[3], p.d);
    }
    hide ParsePoint, WritesPoint;
    if j.Arr? && |j.items| == 8 {
      var i := j.items;
      assert i == [i[0], i[1], i[2], i[3], i[4], i[5], i[6], i[7]];
    }
  }

  // ----- objects that hold one box -----

  const POINT_LIST_NAMES := ["vertices", "points"]

  const POLYGON_NAMES := ["polygon", "poly", "points", "quad", "coordinates"]

  /** Four points under one of the first names, or any form under one of the second that no readable name precedes. */
  ghost predicate HoldsPolygon(m: Members, form: PolygonForm, p: Polygon) {
    || (exists i | 0 <= i < |POINT_LIST_NAMES| :: form.FourPoints? && Holds(m, POINT_LIST_NAMES, i, form, p))
    || (exists i | 0 <= i < |POLYGON_NAMES| :: NoPointList(m) && Holds(m, POLYGON_NAMES, i, form, p))
  }

  ghost predicate Holds(m: Members, names: seq<string>, i: nat, form: PolygonForm, p: Polygon) {
    && i < |names| && names[i] in m && m[names[i]] == PrintPolygon(form, p)
    && forall h | 0 <= h < i :: names[h] !in m
  }

  /** There is no list of four points under the first names, though there may be eight numbers. */
  ghost predicate NoPointList(m: Members) {
    && "vertices" !in m
    && ("points" in m ==> exists q :: m["points"] == PrintPolygon(EightNumbers, q))
  }

  lemma {:induction false} PointListIsRead(m: Members, names: seq<string>, i: nat, form: PolygonForm, p: Polygon)
    requires form.FourPoints? && Holds(m, names, i, form, p)
    ensures FirstPointList(m, names) == Some(p)
    decreases i
  {
    PolygonIsRead(form, p);
    hide ParsePolygonPoints, PrintPolygon;
    if i > 0 {
      assert names[0] !in m && ParsePolygonPoints(Null) == None by { NullIsNoPolygon(); }
      PointListIsRead(m, names[1..], i - 1, form, p);
    }
  }

  lemma NullIsNoPolygon()
    ensures ParsePolygonPoints(Null) == None && ParseFlatCoords(Null) == None
  {
  }

  lemma {:induction false} PolygonUnderANameIsRead(m: Members, names: seq<string>, i: nat, form: PolygonForm,
          p: Polygon)
    requires Holds(m, names, i, form, p)
    ensures FirstPolygon(m, names) == Some(p)
    decreases i
  {
    PolygonIsRead(form, p);
    NullIsNoPolygon();
    hide ParsePolygonPoints, ParseFlatCoords, PrintPolygon;
    if i > 0 {
      assert names[0] !in m;
      PolygonUnderANameIsRead(m, names[1..], i - 1, form, p);
    }
  }

  lemma NoPointListIsRead(m: Members)
    requires NoPointList(m)
    ensures FirstPointList(m, POINT_LIST_NAMES) == None
  {
    NullIsNoPolygon();
    if "points" in m {
      var q :| m["points"] == PrintPolygon(EightNumbers, q);
      PolygonIsRead(EightNumbers, q);
    }
    hide ParsePolygonPoints, PrintPolygon;
    assert POINT_LIST_NAMES[1..] == ["points"] && ["points"][1..] == [];
    assert FirstPointList(m, ["points"]) == None;
  }

  /** Every polygon is read as it was written, under every accepted name and in every accepted form. */
  lemma PolygonOfAnObjectIsRead(m: Members, form: PolygonForm, p: Polygon)
    requires HoldsPolygon(m, form, p)
    ensures ParseBoxObject(m) == [ParsedBox(p, PageOf(m))]
  {
    hide PrintPolygon, ParsePolygonPoints, ParseFlatCoords, FirstPointList, FirstPolygon, PageOf;
    if i :| 0 <= i < |POINT_LIST_NAMES| && form.FourPoints? && Holds(m, POINT_LIST_NAMES, i, form, p) {
      PointListIsRead(m, POINT_LIST_NAMES, i, form, p);
    } else {
      var i :| 0 <= i < |POLYGON_NAMES| && NoPointList(m) && Holds(m, POLYGON_NAMES, i, form, p);
      NoPointListIsRead(m);
      PolygonUnderANameIsRead(m, POLYGON_NAMES, i, form, p);
    }
  }

  /** A corner, a width and a height, under their long names or else their short ones. */
  predicate HoldsRectangle(m: Members, x: real, y: real, w: real, h: real) {
    && (forall name | name in POINT_LIST_NAMES + POLYGON_NAMES :: name !in m)
    && "x" in m && m["x"] == Number(x) && "y" in m && m["y"] == Number(y)
    && (if "width" in m then m["width"] == Number(w) else "w" in m && m["w"] == Number(w))
    && (if "height" in m then m["height"] == Number(h) else "h" in m && m["h"] == Number(h))
  }

  lemma RectangleOfAnObjectIsRead(m: Members, x: real, y: real, w: real, h: real)
    requires HoldsRectangle(m, x, y, w, h)
    ensures ParseBoxObject(m) == [ParsedBox(Corners(Box(x, y, x + w, y + h)), PageOf(m))]
  {
    assert forall name | name in POINT_LIST_NAMES :: name in POINT_LIST_NAMES + POLYGON_NAMES;
    assert forall name | name in POLYGON_NAMES :: name in POINT_LIST_NAMES + POLYGON_NAMES;
    NoPolygonIsHeld(m, POINT_LIST_NAMES);
    NoPolygonIsHeld(m, POLYGON_NAMES);
    assert ParseRect(m) == Some(Corners(Box(x, y, x + w, y + h)));
    hide FirstPointList, FirstPolygon, PageOf, ParseRect;
  }

  lemma {:induction false} NoPolygonIsHeld(m: Members, names: seq<string>)
    requires forall name | name in names :: name !in m
    ensures FirstPointList(m, names) == None && FirstPolygon(m, names) == None
  {
    if names != [] {
      assert names[0] in names;
      NullIsNoPolygon();
      hide ParsePolygonPoints, ParseFlatCoords;
      NoPolygonIsHeld(m, names[1..]);
    }
  }

  // ----- pages -----

  const PAGE_NAMES := ["pageNumber", "page", "pageNo", "pageIndex", "page_index"]

  /** No number of 1 or more is written under the name. */
  predicate NamesNoPage(m: Members, name: string) {
    name in m && m[name].Number? ==> m[name].number < 1.0
  }

  lemma {:induction false} FirstPageIsRead(m: Members, names: seq<string>, i: nat, page: nat)
    requires i < |names| && page > 0 && names[i] in m && m[names[i]].Number?
    requires page as real <= m[names[i]].number < page as real + 1.0
    requires forall h | 0 <= h < i :: NamesNoPage(m, names[h])
    ensures PageNumber(m, names) == page
    decreases i
  {
    if i > 0 {
      assert NamesNoPage(m, names[0]);
      FirstPageIsRead(m, names[1..], i - 1, page);
    }
  }

  /** The page is the first number of at least 1 under one of the names, without its fraction. */
  lemma PageIsRead(m: Members, i: nat, page: nat)
    requires i < |PAGE_NAMES| && page > 0 && PAGE_NAMES[i] in m && m[PAGE_NAMES[i]].Number?
    requires page as real <= m[PAGE_NAMES[i]].number < page as real + 1.0
    requires forall h | 0 <= h < i :: NamesNoPage(m, PAGE_NAMES[h])
    ensures PageOf(m) == page
  {
    FirstPageIsRead(m, PAGE_NAMES, i, page);
  }

  lemma {:induction false} NoPageAmong(m: Members, names: seq<string>)
    requires forall name | name in names :: NamesNoPage(m, name)
    ensures PageNumber(m, names) == 0
  {
    if names != [] {
      assert NamesNoPage(m, names[0]);
      NoPageAmong(m, names[1..]);
    }
  }

  lemma NoPageIsRead(m: Members)
    requires forall name | name in PAGE_NAMES :: NamesNoPage(m, name)
    ensures PageOf(m) == 0
  {
    NoPageAmong(m, PAGE_NAMES);
  }

  // ----- where an object keeps its boxes -----

  const BOX_NAMES := ["boundingBoxes", "boundingBox", "bounding_boxes", "bounding_box", "bbox", "bboxes", "box",
    "boxes", "polygon", "poly", "vertices", "points", "quad", "coordinates", "position"]

  predicate IsMissing(m: Members, name: string) {
    name in m ==> m[name] == Null
  }

  lemma {:induction false} FirstNonNullIsRead(m: Members, names: seq<string>, i: nat)
    requires i < |names| && !IsMissing(m, names[i]) && forall h | 0 <= h < i :: IsMissing(m, names[h])
    ensures FirstPresent(m, names) == m[names[i]]
    decreases i
  {
    if i > 0 {
      assert IsMissing(m, names[0]);
      FirstNonNullIsRead(m, names[1..], i - 1);
    }
  }

  lemma {:induction false} NothingPresent(m: Members, names: seq<string>)
    requires forall name | name in names :: IsMissing(m, name)
    ensures FirstPresent(m, names) == Null
  {
    if names != [] {
      assert IsMissing(m, names[0]);
      NothingPresent(m, names[1..]);
    }
  }

  /** An object carries coordinates iff one of the names has a member that is not null. */
  lemma CarriesCoordinatesIff(m: Members)
    ensures HasGeometryHints(m) <==> exists name | name in BOX_NAMES :: !IsMissing(m, name)
  {
    assert BOX_NAMES == GEOMETRY_MEMBERS;
    hide FirstPresent;
    if forall name | name in BOX_NAMES :: IsMissing(m, name) {
      NothingPresent(m, BOX_NAMES);
    } else {
      var i := FirstThatIsThere(m, BOX_NAMES);
      FirstNonNullIsRead(m, BOX_NAMES, i);
    }
  }

  lemma {:induction false} FirstThatIsThere(m: Members, names: seq<string>) returns (i: nat)
    requires exists name | name in names :: !IsMissing(m, name)
    ensures i < |names| && !IsMissing(m, names[i]) && forall h | 0 <= h < i :: IsMissing(m, names[h])
  {
    if IsMissing(m, names[0]) {
      var name :| name in names && !IsMissing(m, name);
      assert name in names[1..];
      i := FirstThatIsThere(m, names[1..]);
      i := i + 1;
    } else {
      i := 0;
    }
  }

  /** One box as it stands in an answer: the object that holds it, or a string that holds that object. */
  datatype BoxText = BoxText(holder: Members, quoted: bool, text: string)

  function PrintBox(b: BoxText): Json {
    if b.quoted then Str(b.text, Some(Obj(b.holder))) else Obj(b.holder)
  }

  function PrintBoxes(boxes: seq<BoxText>): seq<Json> {
    seq(|boxes|, i requires 0 <= i < |boxes| => PrintBox(boxes[i]))
  }

  predicate AreHeld(texts: seq<BoxText>, boxes: seq<ParsedBox>) {
    |texts| == |boxes| && forall i | 0 <= i < |texts| :: ParseBoxObject(texts[i].holder) == [boxes[i]]
  }

  lemma {:induction false} ListOfBoxesIsRead(texts: seq<BoxText>, boxes: seq<ParsedBox>)
    requires AreHeld(texts, boxes)
    ensures ParseEach(PrintBoxes(texts)) == boxes
  {
    hide ParseBoxObject;
    if texts != [] {
      assert PrintBoxes(texts)[1..] == PrintBoxes(texts[1..]);
      ListOfBoxesIsRead(texts[1..], boxes[1..]);
      assert ParseBoundingBoxes(PrintBox(texts[0])) == [boxes[0]];
      assert [boxes[0]] + boxes[1..] == boxes;
    }
  }

  /** How the boxes of an object are written: one on its own, or a list, and that as it is or as a string. */
  ghost predicate WritesBoxes(j: Json, texts: seq<BoxText>) {
    || (|texts| == 1 && j == PrintBox(texts[0]))
    || j == Arr(PrintBoxes(texts))
    || (j.Str? && j.decoded == Some(Arr(PrintBoxes(texts))))
  }

  lemma WrittenBoxesAreRead(j: Json, texts: seq<BoxText>, boxes: seq<ParsedBox>)
    requires WritesBoxes(j, texts) && AreHeld(texts, boxes)
    ensures ParseBoundingBoxes(j) == boxes
  {
    ListOfBoxesIsRead(texts, boxes);
    hide ParseBoxObject, ParseEach, PrintBoxes;
    if |texts| == 1 && j == PrintBox(texts[0]) {
      assert boxes == [boxes[0]];
    }
  }

  /** The boxes an object reports are those written under the first of the names that is there, in their order. */
  lemma BoxesAreRead(m: Members, i: nat, texts: seq<BoxText>, boxes: seq<ParsedBox>)
    requires i < |BOX_NAMES| && BOX_NAMES[i] in m && WritesBoxes(m[BOX_NAMES[i]], texts)
    requires forall h | 0 <= h < i :: IsMissing(m, BOX_NAMES[h])
    requires AreHeld(texts, boxes)
    ensures BoxesOf(m) == boxes
  {
    assert BOX_NAMES == GEOMETRY_MEMBERS;
    FirstNonNullIsRead(m, BOX_NAMES, i);
    WrittenBoxesAreRead(m[BOX_NAMES[i]], texts, boxes);
    hide FirstPresent, ParseBoundingBoxes, AreHeld;
  }

  // ----- keys and values -----

  const KEY_NAMES := ["key", "name", "label", "fieldName", "fieldType", "type", "category", "class"]

  const VALUE_NAMES := ["value", "rawValue", "text", "ocrText", "content", "normalizedValue", "refinedValue", "chips",
    "label"]

  const TEXT_NAMES := ["value", "text", "content", "label"]

  /** The text of a member, if it is there. */
  function TextUnder(m: Members, name: string): string {
    if name in m then FieldValue(m[name]) else ""
  }

  /** The name is the first of the list with any text under it. */
  predicate IsFirstText(m: Members, names: seq<string>, i: nat) {
    i < |names| && TextUnder(m, names[i]) != "" && forall h | 0 <= h < i :: TextUnder(m, names[h]) == ""
  }

  predicate HasNoText(m: Members, names: seq<string>) {
    forall name | name in names :: TextUnder(m, name) == ""
  }

  lemma NullHasNoText()
    ensures FieldValue(Null) == "" && TrimSpace("") == ""
  {
  }

  lemma {:induction false} FirstTextIsRead(m: Members, names: seq<string>, trim: bool, i: nat)
    requires IsFirstText(m, names, i)
    ensures FirstText(m, names, trim) == TextUnder(m, names[i])
    decreases i
  {
    NullHasNoText();
    TextIsTrimmed(Get(m, names[0]));
    hide FieldValue, TrimSpace;
    if i > 0 {
      assert TextUnder(m, names[0]) == "";
      FirstTextIsRead(m, names[1..], trim, i - 1);
    }
  }

  lemma {:induction false} NoTextIsRead(m: Members, names: seq<string>, trim: bool)
    requires HasNoText(m, names)
    ensures FirstText(m, names, trim) == ""
  {
    NullHasNoText();
    hide FieldValue, TrimSpace;
    if names != [] {
      assert TextUnder(m, names[0]) == "";
      NoTextIsRead(m, names[1..], trim);
    }
  }

  lemma TrimTwice(s: string)
    ensures TrimSpace(TrimSpace(s)) == TrimSpace(s)
  {
    TrimWindow(s);
    if TrimSpace(s) != "" {
      NothingToTrim(TrimSpace(s));
    } else {
      NullHasNoText();
    }
  }

  /** The text of a value never starts or ends with space. */
  lemma {:induction false} TextIsTrimmed(j: Json)
    ensures TrimSpace(FieldValue(j)) == FieldValue(j)
    decreases j, 1
  {
    NullHasNoText();
    match j
    case Str(text, _) => TrimTwice(text);
    case Arr(items) => TrimTwice(Join(FieldParts(items)));
    case Obj(members) => MemberTextIsTrimmed(j, TEXT_NAMES);
    case _ =>
  }

  lemma {:induction false} MemberTextIsTrimmed(j: Json, names: seq<string>)
    requires j.Obj?
    ensures TrimSpace(FirstFieldValue(j, names)) == FirstFieldValue(j, names)
    decreases j, 0, |names|
  {
    NullHasNoText();
    hide TrimSpace;
    if names != [] {
      if names[0] in j.members {
        TextIsTrimmed(j.members[names[0]]);
      }
      MemberTextIsTrimmed(j, names[1..]);
    }
  }

  /** An object reports the text under the first of the key names and that under the first of the value names. */
  lemma EntityIsRead(m: Members, k: nat, v: nat)
    requires IsFirstText(m, KEY_NAMES, k) && IsFirstText(m, VALUE_NAMES, v)
    ensures EntityOf(m) == Some(Entity(TextUnder(m, KEY_NAMES[k]), TextUnder(m, VALUE_NAMES[v])))
  {
    assert KEY_NAMES == KEY_MEMBERS && VALUE_NAMES == VALUE_MEMBERS;
    FirstTextIsRead(m, KEY_NAMES, true, k);
    FirstTextIsRead(m, VALUE_NAMES, false, v);
    hide FirstText, TextUnder, HasGeometryHints;
  }

  /** Without a key it is reported as generic if it carries coordinates, and otherwise not at all. */
  lemma KeylessEntityIsRead(m: Members, v: nat)
    requires HasNoText(m, KEY_NAMES) && IsFirstText(m, VALUE_NAMES, v)
    ensures EntityOf(m) == if exists name | name in BOX_NAMES :: !IsMissing(m, name)
                           then Some(Entity("generic", TextUnder(m, VALUE_NAMES[v]))) else None
  {
    assert KEY_NAMES == KEY_MEMBERS && VALUE_NAMES == VALUE_MEMBERS;
    NoTextIsRead(m, KEY_NAMES, true);
    FirstTextIsRead(m, VALUE_NAMES, false, v);
    CarriesCoordinatesIff(m);
    hide FirstText, TextUnder, HasGeometryHints;
  }

  lemma NoValueNoEntity(m: Members)
    requires HasNoText(m, VALUE_NAMES)
    ensures EntityOf(m) == None
  {
    assert VALUE_NAMES == VALUE_MEMBERS;
    NoTextIsRead(m, VALUE_NAMES, false);
    hide FirstText, HasGeometryHints;
  }

  /** The text of a list is that of its items that have any, with a comma and a blank between two. */
  lemma TextOfAList(first: Json, rest: seq<Json>)
    ensures FieldValue(first) == "" ==> FieldValue(Arr([first] + rest)) == FieldValue(Arr(rest))
    ensures FieldValue(first) != "" && FieldParts(rest) == [] ==> FieldValue(Arr([first] + rest)) == FieldValue(first)
    ensures FieldValue(first) != "" && FieldParts(rest) != [] ==>
              FieldValue(Arr([first] + rest)) == TrimSpace(FieldValue(first) + ", " + Join(FieldParts(rest)))
    ensures FieldValue(Arr([])) == ""
  {
    assert ([first] + rest)[1..] == rest;
    TextIsTrimmed(first);
    NullHasNoText();
    var parts := FieldParts(rest);
    assert ([FieldValue(first)] + parts)[1..] == parts;
    hide TrimSpace;
    assert FieldParts([first] + rest) == (if FieldValue(first) != "" then [FieldValue(first)] else []) + parts;
    assert [] + parts == parts && [FieldValue(first)] + [] == [FieldValue(first)];
  }

  lemma {:induction false} FirstMemberTextIsRead(j: Json, names: seq<string>, i: nat)
    requires j.Obj? && IsFirstText(j.members, names, i)
    ensures FirstFieldValue(j, names) == TextUnder(j.members, names[i])
    decreases i
  {
    hide FieldValue;
    if i > 0 {
      assert TextUnder(j.members, names[0]) == "";
      FirstMemberTextIsRead(j, names[1..], i - 1);
    }
  }

  /** The text of a string is what is left when the space around it is dropped, and that of an object the first text
      under one of four names. */
  lemma TextOfAMember(j: Json, i: nat)
    requires j.Obj? && IsFirstText(j.members, TEXT_NAMES, i)
    ensures FieldValue(j) == TextUnder(j.members, TEXT_NAMES[i])
  {
    FirstMemberTextIsRead(j, TEXT_NAMES, i);
  }

  // ----- a whole field, printed and read -----

  /** How one box is written: under which name, in which form, under which name its page, and as a string or not. */
  datatype BoxStyle = BoxStyle(name: string, form: PolygonForm, pageName: string, quoted: bool, text: string)

  predicate IsAccepted(style: BoxStyle) {
    && ((style.form.FourPoints? && style.name in POINT_LIST_NAMES) || style.name in POLYGON_NAMES)
    && style.pageName in PAGE_NAMES
  }

  /** A box without a page has page 0. */
  function Holder(style: BoxStyle, box: ParsedBox): Members {
    if box.page > 0
    then map[style.name := PrintPolygon(style.form, box.polygon), style.pageName := Number(box.page as real)]
    else map[style.name := PrintPolygon(style.form, box.polygon)]
  }

  lemma BoxNamesHaveNoA(name: string)
    requires name in POINT_LIST_NAMES || name in POLYGON_NAMES
    ensures |name| > 1 && name[1] != 'a'
  {
  }

  lemma PageNamesHaveAnA(name: string)
    requires name in PAGE_NAMES
    ensures |name| > 1 && name[1] == 'a'
  {
  }

  lemma NamesAreApart(style: BoxStyle)
    requires IsAccepted(style)
    ensures style.name !in PAGE_NAMES && style.pageName !in POINT_LIST_NAMES + POLYGON_NAMES
  {
    PageNamesHaveAnA(style.pageName);
    BoxNamesHaveNoA(style.name);
    if style.name in PAGE_NAMES {
      PageNamesHaveAnA(style.name);
    }
    if style.pageName in POINT_LIST_NAMES + POLYGON_NAMES {
      BoxNamesHaveNoA(style.pageName);
    }
  }

  lemma HolderIsRead(style: BoxStyle, box: ParsedBox)
    requires IsAccepted(style) && box.page >= 0
    ensures ParseBoxObject(Holder(style, box)) == [box]
  {
    var m := Holder(style, box);
    NamesAreApart(style);
    assert m[style.name] == PrintPolygon(style.form, box.polygon);
    assert forall name | name in m :: name == style.name || name == style.pageName;
    PageOfAHolder(style, box, m);
    PolygonOfAHolder(style, box, m);
    hide PrintPolygon, PageOf, HoldsPolygon, ParseBoxObject, Holder;
    PolygonOfAnObjectIsRead(m, style.form, box.polygon);
  }

  lemma PageOfAHolder(style: BoxStyle, box: ParsedBox, m: Members)
    requires style.pageName in PAGE_NAMES && box.page >= 0
    requires forall name | name in m :: name == style.pageName || name !in PAGE_NAMES
    requires if box.page > 0 then style.pageName in m && m[style.pageName] == Number(box.page as real)
             else style.pageName !in m
    ensures PageOf(m) == box.page
  {
    if box.page > 0 {
      var i := FirstPlace(PAGE_NAMES, style.pageName);
      forall h | 0 <= h < i
        ensures NamesNoPage(m, PAGE_NAMES[h])
      {
        assert PAGE_NAMES[h] in PAGE_NAMES;
      }
      hide PAGE_NAMES, PageOf;
      PageIsRead(m, i, box.page);
    } else {
      NoPageIsRead(m);
    }
  }

  lemma {:induction false} FirstPlace(names: seq<string>, name: string) returns (i: nat)
    requires name in names
    ensures i < |names| && names[i] == name && forall h | 0 <= h < i :: names[h] != name
  {
    if names[0] == name {
      i := 0;
    } else {
      i := FirstPlace(names[1..], name);
      i := i + 1;
    }
  }

  lemma PolygonOfAHolder(style: BoxStyle, box: ParsedBox, m: Members)
    requires IsAccepted(style) && style.name in m && m[style.name] == PrintPolygon(style.form, box.polygon)
    requires forall name | name in m && name != style.name :: name !in POINT_LIST_NAMES + POLYGON_NAMES
    ensures HoldsPolygon(m, style.form, box.polygon)
  {
    hide PrintPolygon;
    if style.form.FourPoints? && style.name in POINT_LIST_NAMES {
      var i := FirstPlace(POINT_LIST_NAMES, style.name);
      forall h | 0 <= h < i
        ensures POINT_LIST_NAMES[h] !in m
      {
        assert POINT_LIST_NAMES[h] in POINT_LIST_NAMES + POLYGON_NAMES;
      }
      assert Holds(m, POINT_LIST_NAMES, i, style.form, box.polygon);
    } else {
      var i := FirstPlace(POLYGON_NAMES, style.name);
      forall h | 0 <= h < i
        ensures POLYGON_NAMES[h] !in m
      {
        assert POLYGON_NAMES[h] in POINT_LIST_NAMES + POLYGON_NAMES;
      }
      assert Holds(m, POLYGON_NAMES, i, style.form, box.polygon);
      assert "vertices" in POINT_LIST_NAMES + POLYGON_NAMES && "points" in POINT_LIST_NAMES + POLYGON_NAMES;
      assert NoPointList(m);
    }
  }

  function BoxTexts(styles: seq<BoxStyle>, boxes: seq<ParsedBox>): seq<BoxText>
    requires |styles| == |boxes|
  {
    seq(|boxes|, i requires 0 <= i < |boxes| =>
          BoxText(Holder(styles[i], boxes[i]), styles[i].quoted, styles[i].text))
  }

  /** A field is read back as it was written: its key, its value, and all its boxes with their pages and polygons,
      under whichever of the accepted names and in whichever of the accepted forms. */
  lemma AFieldIsReadBack(m: Members, k: nat, v: nat, i: nat, styles: seq<BoxStyle>, boxes: seq<ParsedBox>)
    requires IsFirstText(m, KEY_NAMES, k) && IsFirstText(m, VALUE_NAMES, v)
    requires |styles| == |boxes| && forall j | 0 <= j < |boxes| :: IsAccepted(styles[j]) && boxes[j].page >= 0
    requires i < |BOX_NAMES| && BOX_NAMES[i] in m && WritesBoxes(m[BOX_NAMES[i]], BoxTexts(styles, boxes))
    requires forall h | 0 <= h < i :: IsMissing(m, BOX_NAMES[h])
    ensures EntityOf(m) == Some(Entity(TextUnder(m, KEY_NAMES[k]), TextUnder(m, VALUE_NAMES[v])))
    ensures BoxesOf(m) == boxes
  {
    EntityIsRead(m, k, v);
    forall j | 0 <= j < |boxes|
      ensures ParseBoxObject(Holder(styles[j], boxes[j])) == [boxes[j]]
    {
      HolderIsRead(styles[j], boxes[j]);
    }
    hide Holder, ParseBoxObject, WritesBoxes, EntityOf, BoxesOf, IsFirstText, IsMissing, TextUnder, KEY_NAMES,
         VALUE_NAMES;
    BoxesAreRead(m, i, BoxTexts(styles, boxes), boxes);
  }
}
