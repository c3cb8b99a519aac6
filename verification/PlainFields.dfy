/** How the simplest objects of an answer are read: a plain key, a plain value, and a box given as a rectangle. */
module PlainFields {
  import opened Wrappers
  import opened Runes
  import opened Geometry
  import opened JsonTree

  lemma PlainFieldIsRead(m: Members, key: string, value: string)
    requires "key" in m && m["key"] == Str(key, None) && "value" in m && m["value"] == Str(value, None)
    requires key != "" && !IsSpace(key[0]) && !IsSpace(key[|key| - 1])
    requires value != "" && !IsSpace(value[0]) && !IsSpace(value[|value| - 1])
    ensures EntityOf(m) == Some(Entity(key, value))
  {
    NothingToTrim(key);
    NothingToTrim(value);
    hide TrimSpace, HasGeometryHints;
    assert FirstText(m, KEY_MEMBERS, true) == key;
    assert FirstText(m, VALUE_MEMBERS, false) == value;
  }

  lemma {:induction false} NoneIsPresent(m: Members, keys: seq<string>)
    requires forall k | k in keys :: k !in m
    ensures FirstPresent(m, keys) == Null
  {
    if keys != [] {
      NoneIsPresent(m, keys[1..]);
    }
  }

  lemma {:induction false} NoPageIsGiven(m: Members, keys: seq<string>)
    requires forall k | k in keys :: k !in m
    ensures PageNumber(m, keys) == 0
  {
    if keys != [] {
      NoPageIsGiven(m, keys[1..]);
    }
  }

  lemma {:induction false} NoPolygonIsGiven(m: Members, keys: seq<string>)
    requires forall k | k in keys :: k !in m
    ensures FirstPointList(m, keys) == None && FirstPolygon(m, keys) == None
  {
    if keys != [] {
      NoPolygonIsGiven(m, keys[1..]);
    }
  }

  function Rectangle(x: real, y: real, w: real, h: real): Members {
    map["x" := Number(x), "y" := Number(y), "w" := Number(w), "h" := Number(h)]
  }

  lemma RectangleIsRead(x: real, y: real, w: real, h: real)
    ensures ParseBoxObject(Rectangle(x, y, w, h)) == [ParsedBox(Corners(Box(x, y, x + w, y + h)), 0)]
  {
    var m := Rectangle(x, y, w, h);
    assert m.Keys == {"x", "y", "w", "h"};
    assert ParseRect(m) == Some(Corners(Box(x, y, x + w, y + h)));
    hide Rectangle, ParseRect, FirstPointList, FirstPolygon, PageNumber, Corners;
    NoPolygonIsGiven(m, ["vertices", "points"]);
    NoPolygonIsGiven(m, ["polygon", "poly", "points", "quad", "coordinates"]);
    NoPageIsGiven(m, PAGE_MEMBERS);
  }

  /** A field whose box comes as a string that holds the JSON of a rectangle. */
  function RectangleField(key: string, value: string, text: string, rect: Members): Members {
    map["key" := Str(key, None), "value" := Str(value, None), "boundingBox" := Str(text, Some(Obj(rect)))]
  }

  lemma RectangleFieldIsRead(key: string, value: string, text: string, x: real, y: real, w: real, h: real)
    requires key != "" && !IsSpace(key[0]) && !IsSpace(key[|key| - 1])
    requires value != "" && !IsSpace(value[0]) && !IsSpace(value[|value| - 1])
    ensures
      var m := RectangleField(key, value, text, Rectangle(x, y, w, h));
      && EntityOf(m) == Some(Entity(key, value)) && PageOf(m) == 0
      && BoxesOf(m) == [ParsedBox(Corners(Box(x, y, x + w, y + h)), 0)]
  {
    var m := RectangleField(key, value, text, Rectangle(x, y, w, h));
    assert m.Keys == {"key", "value", "boundingBox"};
    PlainFieldIsRead(m, key, value);
    hide EntityOf, Rectangle, PageNumber, Corners, BoxesOf;
    NoPageIsGiven(m, PAGE_MEMBERS);
    TheBoxIsRead(m, text, x, y, w, h);
  }

  lemma TheBoxIsRead(m: Members, text: string, x: real, y: real, w: real, h: real)
    requires "boundingBoxes" !in m && "boundingBox" in m
      && m["boundingBox"] == Str(text, Some(Obj(Rectangle(x, y, w, h))))
    ensures BoxesOf(m) == [ParsedBox(Corners(Box(x, y, x + w, y + h)), 0)]
  {
    RectangleIsRead(x, y, w, h);
    var rect := Rectangle(x, y, w, h);
    hide Rectangle, ParseBoxObject, Corners;
    assert FirstPresent(m, GEOMETRY_MEMBERS[1..]) == m["boundingBox"];
    assert GeometryCandidate(m) == m["boundingBox"];
    assert ParseUnwrapped(Obj(rect)) == ParseBoxObject(rect);
    assert ParseBoundingBoxes(Str(text, Some(Obj(rect)))) == ParseUnwrapped(Obj(rect));
  }

  predicate IsScalar(j: Json) {
    !j.Obj? && !j.Arr?
  }

  lemma {:induction false} NoObjectsInScalars(j: Json, keys: set<string>)
    requires j.Obj? && keys <= j.members.Keys && forall k | k in keys :: IsScalar(j.members[k])
    ensures ObjectsOfMembers(j, keys) == multiset{}
    decreases keys
  {
    if keys != {} {
      var k :| k in keys && ObjectsOfMembers(j, keys) == Objects(j.members[k]) + ObjectsOfMembers(j, keys - {k});
      NoObjectsInScalars(j, keys - {k});
      assert IsScalar(j.members[k]) && Objects(j.members[k]) == multiset{};
    }
  }

  lemma ObjectsOfALeaf(j: Json)
    requires j.Obj? && forall k | k in j.members :: IsScalar(j.members[k])
    ensures Objects(j) == multiset{j.members}
  {
    NoObjectsInScalars(j, j.members.Keys);
  }

  lemma ObjectsOfTwo(a: Json, b: Json)
    ensures Objects(Arr([a, b])) == Objects(a) + Objects(b)
  {
    var items := [a, b];
    assert items[1..] == [b] && [b][1..] == [];
    assert ObjectsOfItems([b]) == Objects(b) + ObjectsOfItems([]);
    assert ObjectsOfItems(items) == Objects(a) + ObjectsOfItems([b]);
  }
}
