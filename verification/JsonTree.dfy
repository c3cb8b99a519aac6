/** The answer of the inference endpoint as a JSON tree, and how one object of it is read. */
module JsonTree {
  import opened Wrappers
  import opened Runes
  import opened Geometry

  /** A string carries what its text decodes to when it is itself JSON other than null. */
  datatype Json =
    | Null
    | Bool(flag: bool)
    | Number(number: real)
    | Str(text: string, decoded: Option<Json>)
    | Arr(items: seq<Json>)
    | Obj(members: Members)

  type Members = map<string, Json>

  function Get(m: Members, key: string): Json {
    if key in m then m[key] else Null
  }

  // ----- text of an entity -----

  function Join(parts: seq<string>): string {
    if parts == [] then ""
    else if |parts| == 1 then parts[0]
    else parts[0] + ", " + Join(parts[1..])
  }

  function FieldValue(j: Json): string
    decreases j, 1
  {
    match j
    case Str(text, _) => TrimSpace(text)
    case Arr(items) => TrimSpace(Join(FieldParts(items)))
    case Obj(members) => FirstFieldValue(j, ["value", "text", "content", "label"])
    case _ => ""
  }

  function FieldParts(items: seq<Json>): seq<string>
    decreases items, 0
  {
    if items == [] then []
    else
      var inner := FieldValue(items[0]);
      (if inner != "" then [inner] else []) + FieldParts(items[1..])
  }

  function FirstFieldValue(j: Json, keys: seq<string>): string
    requires j.Obj?
    decreases j, 0, |keys|
  {
    if keys == [] then ""
    else
      var inner := if keys[0] in j.members then FieldValue(j.members[keys[0]]) else "";
      if inner != "" then inner else FirstFieldValue(j, keys[1..])
  }

  const KEY_MEMBERS: seq<string> :=
    ["key", "name", "label", "fieldName", "fieldType", "type", "category", "class"]

  const VALUE_MEMBERS: seq<string> :=
    ["value", "rawValue", "text", "ocrText", "content", "normalizedValue", "refinedValue", "chips", "label"]

  const GEOMETRY_MEMBERS: seq<string> :=
    ["boundingBoxes", "boundingBox", "bounding_boxes", "bounding_box", "bbox", "bboxes", "box", "boxes",
     "polygon", "poly", "vertices", "points", "quad", "coordinates", "position"]

  const PAGE_MEMBERS: seq<string> := ["pageNumber", "page", "pageNo", "pageIndex", "page_index"]

  function FirstText(m: Members, keys: seq<string>, trim: bool): string {
    if keys == [] then ""
    else
      var text := if trim then TrimSpace(FieldValue(Get(m, keys[0]))) else FieldValue(Get(m, keys[0]));
      if text != "" then text else FirstText(m, keys[1..], trim)
  }

  function FirstPresent(m: Members, keys: seq<string>): Json {
    if keys == [] then Null
    else if Get(m, keys[0]) != Null then m[keys[0]]
    else FirstPresent(m, keys[1..])
  }

  function GeometryCandidate(m: Members): Json {
    FirstPresent(m, GEOMETRY_MEMBERS)
  }

  predicate HasGeometryHints(m: Members) {
    GeometryCandidate(m) != Null
  }

  datatype Entity = Entity(key: string, value: string)

  /** The key and value an object reports, if it reports both. */
  function EntityOf(m: Members): (entity: Option<Entity>)
    ensures entity.Some? ==> entity.value.key != "" && entity.value.value != ""
  {
    var ownKey := FirstText(m, KEY_MEMBERS, true);
    var value := FirstText(m, VALUE_MEMBERS, false);
    var key := if ownKey == "" && value != "" && HasGeometryHints(m) then "generic" else ownKey;
    if key != "" && value != "" then Some(Entity(key, value)) else None
  }

  // ----- numbers -----

  function ToReal(j: Json): Option<real> {
    if j.Number? then Some(j.number) else None
  }

  /** Conversion to an integer drops the fraction, towards zero. */
  function ToInt(j: Json): Option<int> {
    if j.Number? then Some(if j.number >= 0.0 then j.number.Floor else -((-j.number).Floor)) else None
  }

  /** The first positive page number among the members that may carry one, or zero. */
  function PageNumber(m: Members, keys: seq<string>): (page: int)
    ensures page >= 0
  {
    if keys == [] then 0
    else
      var page := ToInt(Get(m, keys[0]));
      if page.Some? && page.value > 0 then page.value else PageNumber(m, keys[1..])
  }

  function PageOf(m: Members): (page: int)
    ensures page >= 0
  {
    PageNumber(m, PAGE_MEMBERS)
  }

  function Confidence(m: Members): Option<real> {
    var own := ToReal(Get(m, "confidence"));
    if own.Some? then own else ToReal(Get(m, "entityConfidence"))
  }

  // ----- geometry of an entity -----

  datatype ParsedBox = ParsedBox(polygon: Polygon, page: int)

  function MakePoint(x: Option<real>, y: Option<real>): Option<Point> {
    if x.Some? && y.Some? then Some(Point(x.value, y.value)) else None
  }

  function MakePolygon(a: Option<Point>, b: Option<Point>, c: Option<Point>, d: Option<Point>): Option<Polygon> {
    if a.Some? && b.Some? && c.Some? && d.Some? then Some(Polygon(a.value, b.value, c.value, d.value)) else None
  }

  function ParsePoint(j: Json): Option<Point> {
    if j.Arr? && |j.items| == 2 then MakePoint(ToReal(j.items[0]), ToReal(j.items[1]))
    else if j.Obj? then MakePoint(ToReal(Get(j.members, "x")), ToReal(Get(j.members, "y")))
    else None
  }

  function ParsePolygonPoints(j: Json): Option<Polygon> {
    if j.Arr? && |j.items| == 4
    then MakePolygon(ParsePoint(j.items[0]), ParsePoint(j.items[1]), ParsePoint(j.items[2]), ParsePoint(j.items[3]))
    else None
  }

  function ParseFlatCoords(j: Json): Option<Polygon> {
    if j.Arr? && |j.items| == 8 then
      MakePolygon(
        MakePoint(ToReal(j.items[0]), ToReal(j.items[1])), MakePoint(ToReal(j.items[2]), ToReal(j.items[3])),
        MakePoint(ToReal(j.items[4]), ToReal(j.items[5])), MakePoint(ToReal(j.items[6]), ToReal(j.items[7])))
    else None
  }

  function FirstPointList(m: Members, keys: seq<string>): Option<Polygon> {
    if keys == [] then None
    else
      var polygon := ParsePolygonPoints(Get(m, keys[0]));
      if polygon.Some? then polygon else FirstPointList(m, keys[1..])
  }

  function FirstPolygon(m: Members, keys: seq<string>): Option<Polygon> {
    if keys == [] then None
    else
      var points, flat := ParsePolygonPoints(Get(m, keys[0])), ParseFlatCoords(Get(m, keys[0]));
      if points.Some? then points else if flat.Some? then flat else FirstPolygon(m, keys[1..])
  }

  function FirstReal(m: Members, first: string, second: string): Option<real> {
    var x := ToReal(Get(m, first));
    if x.Some? then x else ToReal(Get(m, second))
  }

  function ParseRect(m: Members): Option<Polygon> {
    var x, y := ToReal(Get(m, "x")), ToReal(Get(m, "y"));
    var w, h := FirstReal(m, "width", "w"), FirstReal(m, "height", "h");
    if x.Some? && y.Some? && w.Some? && h.Some? then
      Some(Polygon(Point(x.value, y.value), Point(x.value + w.value, y.value),
                   Point(x.value + w.value, y.value + h.value), Point(x.value, y.value + h.value)))
    else None
  }

  function ParseBoxObject(m: Members): seq<ParsedBox> {
    var listed := FirstPointList(m, ["vertices", "points"]);
    if listed.Some? then [ParsedBox(listed.value, PageOf(m))] else
    var polygon := FirstPolygon(m, ["polygon", "poly", "points", "quad", "coordinates"]);
    if polygon.Some? then [ParsedBox(polygon.value, PageOf(m))] else
    var rect := ParseRect(m);
    if rect.Some? then [ParsedBox(rect.value, PageOf(m))] else []
  }

  /** A string that holds JSON is read as that JSON, at every level of a list. */
  function ParseBoundingBoxes(raw: Json): seq<ParsedBox>
    decreases raw, 1
  {
    match raw
    case Str(_, Some(inner)) => ParseUnwrapped(inner)
    case _ => ParseUnwrapped(raw)
  }

  function ParseUnwrapped(j: Json): seq<ParsedBox>
    decreases j, 0
  {
    match j
    case Obj(members) => ParseBoxObject(members)
    case Arr(items) => ParseEach(items)
    case _ => []
  }

  function ParseEach(items: seq<Json>): seq<ParsedBox>
    decreases items, 0
  {
    if items == [] then [] else ParseBoundingBoxes(items[0]) + ParseEach(items[1..])
  }

  /** The boxes an object reports for itself. */
  function BoxesOf(m: Members): seq<ParsedBox> {
    ParseBoundingBoxes(GeometryCandidate(m))
  }

  // ----- the objects of a tree -----

  /** Every object in the tree, as often as it occurs; strings are not looked into. */
  ghost function Objects(j: Json): multiset<Members>
    decreases j, 1
  {
    match j
    case Obj(members) => multiset{members} + ObjectsOfMembers(j, members.Keys)
    case Arr(items) => ObjectsOfItems(items)
    case _ => multiset{}
  }

  ghost function ObjectsOfMembers(j: Json, keys: set<string>): multiset<Members>
    requires j.Obj? && keys <= j.members.Keys
    decreases j, 0, keys
  {
    if keys == {} then multiset{}
    else
      var k :| k in keys;
      Objects(j.members[k]) + ObjectsOfMembers(j, keys - {k})
  }

  ghost function ObjectsOfItems(items: seq<Json>): multiset<Members>
    decreases items, 0
  {
    if items == [] then multiset{} else Objects(items[0]) + ObjectsOfItems(items[1..])
  }

  /** The objects of an object do not depend on the order in which its members are visited. */
  lemma {:induction false} AnyMemberFirst(j: Json, keys: set<string>, k: string)
    requires j.Obj? && keys <= j.members.Keys && k in keys
    ensures ObjectsOfMembers(j, keys) == Objects(j.members[k]) + ObjectsOfMembers(j, keys - {k})
    decreases keys
  {
    var first :| first in keys
      && ObjectsOfMembers(j, keys) == Objects(j.members[first]) + ObjectsOfMembers(j, keys - {first});
    if first != k {
      AnyMemberFirst(j, keys - {first}, k);
      AnyMemberFirst(j, keys - {k}, first);
      assert keys - {first} - {k} == keys - {k} - {first};
    }
  }

  // ----- does anything carry coordinates? -----

  predicate ContainsGeometry(j: Json) {
    match j
    case Obj(members) => HasGeometryHints(members) || exists k | k in members :: ContainsGeometry(members[k])
    case Arr(items) => exists i | 0 <= i < |items| :: ContainsGeometry(items[i])
    case _ => false
  }

  /** The search finds coordinates exactly when some object of the tree has them. */
  lemma {:induction false} ContainsGeometryIff(j: Json)
    ensures ContainsGeometry(j) <==> exists m :: m in Objects(j) && HasGeometryHints(m)
    decreases j, 1
  {
    match j
    case Obj(members) => ContainsGeometryInMembers(j, members.Keys);
    case Arr(items) => ContainsGeometryInItems(items);
    case _ =>
  }

  lemma {:induction false} ContainsGeometryInMembers(j: Json, keys: set<string>)
    requires j.Obj? && keys <= j.members.Keys
    ensures (exists k | k in keys :: ContainsGeometry(j.members[k])) <==>
            exists m :: m in ObjectsOfMembers(j, keys) && HasGeometryHints(m)
    decreases j, 0, keys
  {
    if keys != {} {
      var k :| k in keys && ObjectsOfMembers(j, keys) == Objects(j.members[k]) + ObjectsOfMembers(j, keys - {k});
      ContainsGeometryIff(j.members[k]);
      ContainsGeometryInMembers(j, keys - {k});
    }
  }

  lemma {:induction false} ContainsGeometryInItems(items: seq<Json>)
    ensures (exists i | 0 <= i < |items| :: ContainsGeometry(items[i])) <==>
            exists m :: m in ObjectsOfItems(items) && HasGeometryHints(m)
    decreases items, 0
  {
    if items != [] {
      ContainsGeometryIff(items[0]);
      ContainsGeometryInItems(items[1..]);
      assert forall i | 1 <= i < |items| :: items[i] == items[1..][i - 1];
    }
  }
}
