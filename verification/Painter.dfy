/** Drawing the regions: black rectangles on a pixel grid, and black stamps on PDF pages. */
module Painter {
  import opened Wrappers
  import opened Geometry

  /** What stops a document from being masked: the upload itself, or an answer that does not fit it. */
  datatype MaskError = BadUpload | BadAnswer

  function MaskErrorOf(e: PlaceError): MaskError {
    match e
    case NoUsableDimensions => BadUpload
    case Unplaceable => BadAnswer
  }

  // ----- images -----

  datatype Color = Rgba(r: int, g: int, b: int, a: int)

  const BLACK: Color := Rgba(0, 0, 0, 255)

  /** A decoded image: its origin, its size and its rows. */
  datatype Picture = Picture(minX: int, minY: int, width: nat, height: nat, rows: seq<seq<Color>>) {
    predicate Valid() {
      |rows| == height && forall y | 0 <= y < height :: |rows[y]| == width
    }

    function Size(): PageSize {
      PageSize(width as real, height as real)
    }
  }

  /** A half open pixel rectangle in the coordinates of the image. */
  datatype PixelRect = PixelRect(minX: int, minY: int, maxX: int, maxY: int) {
    predicate Has(x: int, y: int) {
      minX <= x < maxX && minY <= y < maxY
    }
  }

  function RectOf(src: Picture, placed: Box): PixelRect {
    PixelRect(src.minX + placed.minX.Floor, src.minY + placed.minY.Floor,
              src.minX + Ceil(placed.maxX), src.minY + Ceil(placed.maxY))
  }

  /** The rectangles of all regions, or the first failure. */
  function PlaceAll(src: Picture, regions: seq<Region>, api: Option<PageSize>): Result<seq<PixelRect>, PlaceError> {
    if regions == [] then Ok([])
    else
      var front := PlaceAll(src, regions[..|regions| - 1], api);
      if front.Err? then front else
      match PlaceRegion(regions[|regions| - 1], api, src.Size())
      case Err(e) => Err(e)
      case Ok(placed) => Ok(front.value + [RectOf(src, placed)])
  }

  predicate Covered(rects: seq<PixelRect>, x: int, y: int) {
    exists j | 0 <= j < |rects| :: rects[j].Has(x, y)
  }

  function PaintedPixel(src: Picture, rects: seq<PixelRect>, x: nat, y: nat): Color
    requires src.Valid() && x < src.width && y < src.height
  {
    if Covered(rects, src.minX + x, src.minY + y) then BLACK else src.rows[y][x]
  }

  function Paint(src: Picture, rects: seq<PixelRect>): (dst: Picture)
    requires src.Valid()
    ensures dst.Valid() && dst.width == src.width && dst.height == src.height && dst.minX == src.minX
      && dst.minY == src.minY
  {
    src.(rows := seq(src.height, y requires 0 <= y < src.height =>
                   seq(src.width, x requires 0 <= x < src.width => PaintedPixel(src, rects, x, y))))
  }

  function MaskedPicture(src: Picture, regions: seq<Region>, api: Option<PageSize>): Result<Picture, MaskError>
    requires src.Valid()
  {
    match PlaceAll(src, regions, api)
    case Err(e) => Err(MaskErrorOf(e))
    case Ok(rects) => Ok(Paint(src, rects))
  }

  /** Fills one rectangle, as far as it lies on the buffer. */
  method FillRect(dst: array2<Color>, src: Picture, rect: PixelRect)
    requires dst.Length0 == src.height && dst.Length1 == src.width
    modifies dst
    ensures forall y, x | 0 <= y < src.height && 0 <= x < src.width ::
              dst[y, x] == if rect.Has(src.minX + x, src.minY + y) then BLACK else old(dst[y, x])
  {
    forall y, x | 0 <= y < src.height && 0 <= x < src.width && rect.Has(src.minX + x, src.minY + y) {
      dst[y, x] := BLACK;
    }
  }

  method ReadBack(dst: array2<Color>) returns (rows: seq<seq<Color>>)
    ensures |rows| == dst.Length0
    ensures forall y | 0 <= y < dst.Length0 :: |rows[y]| == dst.Length1 && forall x | 0 <= x < dst.Length1 ::
      rows[y][x] == dst[y, x]
  {
    rows := [];
    for y := 0 to dst.Length0
      invariant |rows| == y
      invariant forall k | 0 <= k < y :: |rows[k]| == dst.Length1 && forall x | 0 <= x < dst.Length1 ::
        rows[k][x] == dst[k, x]
    {
      var row: seq<Color> := [];
      for x := 0 to dst.Length1
        invariant |row| == x
        invariant forall k | 0 <= k < x :: row[k] == dst[y, k]
      {
        row := row + [dst[y, x]];
      }
      rows := rows + [row];
    }
  }

  /** All regions are placed before the first pixel is drawn; the source is copied, then covered. */
  method MaskImage(src: Picture, regions: seq<Region>, api: Option<PageSize>) returns (r: Result<Picture, MaskError>)
    requires src.Valid()
    ensures r == MaskedPicture(src, regions, api)
  {
    var rects: seq<PixelRect> := [];
    for index := 0 to |regions|
      invariant PlaceAll(src, regions[..index], api) == Ok(rects)
    {
      assert regions[..index + 1][..index] == regions[..index];
      match PlaceRegion(regions[index], api, src.Size()) {
        case Err(e) =>
          FirstFailureDecides(src, regions, api, index + 1);
          return Err(MaskErrorOf(e));
        case Ok(placed) =>
          rects := rects + [RectOf(src, placed)];
      }
    }
    assert regions[..|regions|] == regions;
    var dst := PaintBuffer(src, rects);
    var rows := ReadBack(dst);
    PaintIsPixelwise(src, rects, rows);
    r := Ok(src.(rows := rows));
  }

  lemma {:induction false} FirstFailureDecides(src: Picture, regions: seq<Region>, api: Option<PageSize>, n: nat)
    requires n <= |regions| && PlaceAll(src, regions[..n], api).Err?
    ensures PlaceAll(src, regions, api) == PlaceAll(src, regions[..n], api)
    decreases |regions|
  {
    if n == |regions| {
      assert regions[..n] == regions;
    } else {
      var front := regions[..|regions| - 1];
      assert front[..n] == regions[..n];
      FirstFailureDecides(src, front, api, n);
    }
  }

  lemma PaintIsPixelwise(src: Picture, rects: seq<PixelRect>, rows: seq<seq<Color>>)
    requires src.Valid() && |rows| == src.height
    requires forall y | 0 <= y < src.height :: |rows[y]| == src.width && forall x | 0 <= x < src.width ::
      rows[y][x] == PaintedPixel(src, rects, x, y)
    ensures src.(rows := rows) == Paint(src, rects)
  {
    forall y | 0 <= y < src.height
      ensures rows[y] == Paint(src, rects).rows[y]
    {
    }
  }

  method PaintBuffer(src: Picture, rects: seq<PixelRect>) returns (dst: array2<Color>)
    requires src.Valid()
    ensures fresh(dst) && dst.Length0 == src.height && dst.Length1 == src.width
    ensures forall y, x | 0 <= y < src.height && 0 <= x < src.width :: dst[y, x] == PaintedPixel(src, rects, x, y)
  {
    dst := new Color[src.height, src.width](
      (y, x) requires 0 <= y < src.height && 0 <= x < src.width => src.rows[y][x]);
    for index := 0 to |rects|
      invariant forall y, x | 0 <= y < src.height && 0 <= x < src.width ::
        dst[y, x] == PaintedPixel(src, rects[..index], x, y)
    {
      FillRect(dst, src, rects[index]);
      forall y, x | 0 <= y < src.height && 0 <= x < src.width
        ensures dst[y, x] == PaintedPixel(src, rects[..index + 1], x, y)
      {
        OneMoreRect(rects, index, src.minX + x, src.minY + y);
      }
    }
    assert rects[..|rects|] == rects;
  }

  lemma OneMoreRect(rects: seq<PixelRect>, index: nat, x: int, y: int)
    requires index < |rects|
    ensures Covered(rects[..index + 1], x, y) <==> Covered(rects[..index], x, y) || rects[index].Has(x, y)
  {
    var front, all := rects[..index], rects[..index + 1];
    if Covered(front, x, y) {
      var j :| 0 <= j < |front| && front[j].Has(x, y);
      assert all[j].Has(x, y);
    }
    if rects[index].Has(x, y) {
      assert all[index].Has(x, y);
    }
  }

  // ----- what is black -----

  /** The pixel square at x, y and the box share area. */
  predicate Overlaps(b: Box, x: int, y: int) {
    b.minX < (x + 1) as real && b.maxX > x as real && b.minY < (y + 1) as real && b.maxY > y as real
  }

  /** Rounding outwards takes exactly the pixels the placed box touches. */
  lemma RectHoldsTouchedPixels(src: Picture, placed: Box, x: int, y: int)
    ensures RectOf(src, placed).Has(src.minX + x, src.minY + y) <==> Overlaps(placed, x, y)
  {
  }

  ghost predicate AllPlaced(src: Picture, regions: seq<Region>, api: Option<PageSize>) {
    forall r | r in regions :: PlaceRegion(r, api, src.Size()).Ok?
  }

  ghost predicate RectsOf(src: Picture, regions: seq<Region>, api: Option<PageSize>, rects: seq<PixelRect>) {
    && |rects| == |regions|
    && forall j | 0 <= j < |regions| ::
         PlaceRegion(regions[j], api, src.Size()).Ok?
           && rects[j] == RectOf(src, PlaceRegion(regions[j], api, src.Size()).value)
  }

  /** The whole picture is placed exactly when every region is, and the rectangles are exactly theirs. */
  lemma {:induction false} PlacedRects(src: Picture, regions: seq<Region>, api: Option<PageSize>)
    ensures PlaceAll(src, regions, api).Ok? <==> AllPlaced(src, regions, api)
    ensures PlaceAll(src, regions, api).Ok? ==> RectsOf(src, regions, api, PlaceAll(src, regions, api).value)
  {
    hide PlaceRegion, RectOf;
    if regions != [] {
      var front, last := regions[..|regions| - 1], regions[|regions| - 1];
      PlacedRects(src, front, api);
      assert regions == front + [last];
      assert forall r :: r in regions <==> r in front || r == last;
    }
  }

  /** Every pixel of the page that a placed region touches is black. */
  lemma TouchedPixelsAreBlack(src: Picture, regions: seq<Region>, api: Option<PageSize>, j: nat, x: nat, y: nat)
    requires src.Valid() && MaskedPicture(src, regions, api).Ok?
    requires j < |regions| && x < src.width && y < src.height
    ensures PlaceRegion(regions[j], api, src.Size()).Ok?
    ensures Overlaps(PlaceRegion(regions[j], api, src.Size()).value, x, y) ==>
              MaskedPicture(src, regions, api).value.rows[y][x] == BLACK
  {
    PlacedRects(src, regions, api);
    var rects := PlaceAll(src, regions, api).value;
    var placed := PlaceRegion(regions[j], api, src.Size()).value;
    hide PlaceRegion;
    if Overlaps(placed, x, y) {
      RectHoldsTouchedPixels(src, placed, x, y);
      assert rects[j].Has(src.minX + x, src.minY + y);
    }
  }

  /** Every pixel that no placed region touches keeps the colour it had. */
  lemma OtherPixelsAreKept(src: Picture, regions: seq<Region>, api: Option<PageSize>, x: nat, y: nat)
    requires src.Valid() && MaskedPicture(src, regions, api).Ok?
    requires x < src.width && y < src.height
    requires forall r | r in regions && PlaceRegion(r, api, src.Size()).Ok? ::
               !Overlaps(PlaceRegion(r, api, src.Size()).value, x, y)
    ensures MaskedPicture(src, regions, api).value.rows[y][x] == src.rows[y][x]
  {
    PlacedRects(src, regions, api);
    var rects := PlaceAll(src, regions, api).value;
    hide PlaceRegion, RectOf, Overlaps;
    forall j | 0 <= j < |rects|
      ensures !rects[j].Has(src.minX + x, src.minY + y)
    {
      assert regions[j] in regions;
      RectHoldsTouchedPixels(src, PlaceRegion(regions[j], api, src.Size()).value, x, y);
    }
  }

  lemma {:induction false} FailureKind(src: Picture, regions: seq<Region>, api: Option<PageSize>)
    requires PlaceAll(src, regions, api).Err?
    ensures PlaceAll(src, regions, api).error == if Usable(src.Size()) then Unplaceable else NoUsableDimensions
  {
    if regions != [] && PlaceAll(src, regions[..|regions| - 1], api).Err? {
      FailureKind(src, regions[..|regions| - 1], api);
    }
  }

  /** The picture, and whether there is one, depends on which regions there are and not on their order. */
  lemma PictureDoesNotDependOnTheOrder(src: Picture, r1: seq<Region>, r2: seq<Region>, api: Option<PageSize>)
    requires src.Valid()
    requires forall r :: r in r1 <==> r in r2
    ensures MaskedPicture(src, r1, api) == MaskedPicture(src, r2, api)
  {
    PlacedRects(src, r1, api);
    PlacedRects(src, r2, api);
    hide PlaceRegion, RectOf, PlaceAll;
    var p1, p2 := PlaceAll(src, r1, api), PlaceAll(src, r2, api);
    if p1.Err? {
      assert p2.Err?;
      FailureKind(src, r1, api);
      FailureKind(src, r2, api);
    } else {
      SamePaint(src, r1, r2, api);
    }
  }

  lemma SamePaint(src: Picture, r1: seq<Region>, r2: seq<Region>, api: Option<PageSize>)
    requires src.Valid() && forall r :: r in r1 <==> r in r2
    requires PlaceAll(src, r1, api).Ok? && PlaceAll(src, r2, api).Ok?
    ensures Paint(src, PlaceAll(src, r1, api).value) == Paint(src, PlaceAll(src, r2, api).value)
  {
    hide PlaceRegion, PlaceAll;
    var p1, p2 := PlaceAll(src, r1, api).value, PlaceAll(src, r2, api).value;
    forall y, x | 0 <= y < src.height && 0 <= x < src.width
      ensures PaintedPixel(src, p1, x, y) == PaintedPixel(src, p2, x, y)
    {
      if Covered(p1, src.minX + x, src.minY + y) {
        SameCover(src, r1, r2, api, src.minX + x, src.minY + y);
      }
      if Covered(p2, src.minX + x, src.minY + y) {
        SameCover(src, r2, r1, api, src.minX + x, src.minY + y);
      }
    }
    PaintIsPixelwise(src, p2, Paint(src, p1).rows);
  }

  lemma SameCover(src: Picture, r1: seq<Region>, r2: seq<Region>, api: Option<PageSize>, x: int, y: int)
    requires forall r :: r in r1 <==> r in r2
    requires PlaceAll(src, r1, api).Ok? && PlaceAll(src, r2, api).Ok?
    requires Covered(PlaceAll(src, r1, api).value, x, y)
    ensures Covered(PlaceAll(src, r2, api).value, x, y)
  {
    hide PlaceRegion, PlaceAll, RectOf;
    PlacedRects(src, r1, api);
    PlacedRects(src, r2, api);
    var p1, p2 := PlaceAll(src, r1, api).value, PlaceAll(src, r2, api).value;
    assert |p1| == |r1|;
    var j :| 0 <= j < |p1| && p1[j].Has(x, y);
    assert r1[j] in r2;
    var k :| 0 <= k < |r2| && r2[k] == r1[j];
    assert p2[k].Has(x, y);
  }

  // ----- PDF pages -----

  /** Two decimals, rounded to the nearest. */
  function PrintTwoDecimals(x: real): (printed: real)
    ensures PrintsAs(x, printed)
  {
    var hundredths := (x * 100.0 + 0.5).Floor as real;
    assert hundredths / 100.0 * 100.0 == hundredths;
    hundredths / 100.0
  }

  function Lookup(sizes: map<int, PageSize>, page: int): Option<PageSize> {
    if page in sizes then Some(sizes[page]) else None
  }

  /** Where a region ends up on its page of the document. */
  function PlaceOnPage(pages: seq<PageSize>, sizes: map<int, PageSize>, region: Region): Result<Box, MaskError> {
    if region.page < 1 || region.page > |pages| then Err(BadAnswer) else
    match PlaceRegion(region, Lookup(sizes, region.page), pages[region.page - 1])
    case Err(e) => Err(MaskErrorOf(e))
    case Ok(placed) => Ok(placed)
  }

  function StampOf(placed: Box, target: PageSize): (stamp: Stamp)
    ensures StampsFor(placed, target, stamp)
  {
    var offset := StampOffset(placed, target);
    Stamp(PrintTwoDecimals(offset.x), PrintTwoDecimals(offset.y), StampWidth(placed), StampHeight(placed))
  }

  datatype PageStamp = PageStamp(page: int, stamp: Stamp)

  function StampAll(pages: seq<PageSize>, sizes: map<int, PageSize>,
          regions: seq<Region>): Result<seq<PageStamp>, MaskError>
  {
    if regions == [] then Ok([])
    else
      var front, last := StampAll(pages, sizes, regions[..|regions| - 1]), regions[|regions| - 1];
      if front.Err? then front else
      match PlaceOnPage(pages, sizes, last)
      case Err(e) => Err(e)
      case Ok(placed) => Ok(front.value + [PageStamp(last.page, StampOf(placed, pages[last.page - 1]))])
  }

  /** The stamps for a document; a document without any region to stamp is refused. */
  method StampPdf(pages: seq<PageSize>, sizes: map<int, PageSize>, regions: seq<Region>)
    returns (r: Result<seq<PageStamp>, MaskError>)
    ensures r == if regions == [] then Err(BadUpload) else StampAll(pages, sizes, regions)
  {
    hide PlaceRegion, StampOf, PrintTwoDecimals;
    var stamps: seq<PageStamp> := [];
    for index := 0 to |regions|
      invariant StampAll(pages, sizes, regions[..index]) == Ok(stamps)
      invariant |stamps| == index
    {
      assert regions[..index + 1][..index] == regions[..index];
      var region := regions[index];
      match PlaceOnPage(pages, sizes, region) {
        case Err(e) =>
          FirstPageFailureDecides(pages, sizes, regions, index + 1);
          return Err(e);
        case Ok(placed) =>
          stamps := stamps + [PageStamp(region.page, StampOf(placed, pages[region.page - 1]))];
      }
    }
    assert regions[..|regions|] == regions;
    if |stamps| == 0 {
      return Err(BadUpload);
    }
    r := Ok(stamps);
  }

  lemma {:induction false} FirstPageFailureDecides(pages: seq<PageSize>, sizes: map<int, PageSize>,
          regions: seq<Region>, n: nat)
    requires n <= |regions| && StampAll(pages, sizes, regions[..n]).Err?
    ensures StampAll(pages, sizes, regions) == StampAll(pages, sizes, regions[..n])
    decreases |regions|
  {
    if n == |regions| {
      assert regions[..n] == regions;
    } else {
      var front := regions[..|regions| - 1];
      assert front[..n] == regions[..n];
      FirstPageFailureDecides(pages, sizes, front, n);
    }
  }

  ghost predicate StampFits(pages: seq<PageSize>, sizes: map<int, PageSize>, region: Region, stamped: PageStamp) {
    && 1 <= region.page <= |pages|
    && PlaceOnPage(pages, sizes, region).Ok?
    && stamped.page == region.page
    && StampsFor(PlaceOnPage(pages, sizes, region).value, pages[region.page - 1], stamped.stamp)
  }

  /** A document is stamped exactly when every region fits a page it has, one stamp for each region. */
  lemma {:induction false} EveryRegionIsStamped(pages: seq<PageSize>, sizes: map<int, PageSize>, regions: seq<Region>)
    ensures StampAll(pages, sizes, regions).Ok? <==> forall r | r in regions :: PlaceOnPage(pages, sizes, r).Ok?
    ensures StampAll(pages, sizes, regions).Ok? ==>
              && |StampAll(pages, sizes, regions).value| == |regions|
              && forall j | 0 <= j < |regions| ::
                StampFits(pages, sizes, regions[j], StampAll(pages, sizes, regions).value[j])
  {
    hide PlaceRegion, StampsFor, StampOf;
    if regions != [] {
      var front, last := regions[..|regions| - 1], regions[|regions| - 1];
      EveryRegionIsStamped(pages, sizes, front);
      assert regions == front + [last];
      assert forall r :: r in regions <==> r in front || r == last;
      if PlaceOnPage(pages, sizes, last).Ok? {
        LastStampFits(pages, sizes, last);
      }
    }
  }

  lemma LastStampFits(pages: seq<PageSize>, sizes: map<int, PageSize>, region: Region)
    requires PlaceOnPage(pages, sizes, region).Ok?
    ensures 1 <= region.page <= |pages|
    ensures StampFits(pages, sizes, region,
                      PageStamp(region.page, StampOf(PlaceOnPage(pages, sizes, region).value, pages[region.page - 1])))
  {
    hide PlaceRegion, StampsFor;
  }
}
