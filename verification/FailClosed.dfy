/** The decision whether a document may be handed out.

    The image codecs and the PDF library are parameters. Everything between the answer of
    the inference endpoint and the bytes handed out is decided here. */
module FailClosed {
  import opened Wrappers
  import opened Geometry
  import opened JsonTree
  import opened WalkOrders
  import opened Collectors
  import opened WalkAgreement
  import opened Painter
  import opened Coverage

  type ValidPicture = p: Picture | p.Valid() witness Picture(0, 0, 0, 0, [])

  datatype MimeKind = Pdf | Image | Other

  /** The image and PDF libraries, which may fail on any input. */
  datatype Library = Library(
    decode: Bytes -> Option<ValidPicture>,
    encode: ValidPicture -> Option<Bytes>,
    pageSizes: Bytes -> Option<seq<PageSize>>,
    stamp: (Bytes, seq<PageStamp>) -> Option<Bytes>)

  /** Unusable answer, answer whose geometry cannot be drawn, or a fault of the upload itself. */
  datatype Failure = Unrecognized | MaskingFailed | ProcessingFailed

  datatype Handout = Handout(content: Bytes, appliedRegions: nat)

  function FailureOf(e: MaskError): Failure {
    match e
    case BadUpload => ProcessingFailed
    case BadAnswer => MaskingFailed
  }

  /** The schema an answer follows, empty when it is in none that is known. */
  function DetectSchema(payload: Json): string {
    if !payload.Obj? then ""
    else if "fields" in payload.members then "oac"
    else if "document" in payload.members || "documents" in payload.members || "groups" in payload.members
      || "entities" in payload.members
    then "ufp" else ""
  }

  function DrawImage(lib: Library, upload: Bytes, regions: seq<Region>,
          sizes: map<int, PageSize>): Result<Bytes, Failure>
  {
    match lib.decode(upload)
    case None => Err(ProcessingFailed)
    case Some(src) =>
      match MaskedPicture(src, regions, Lookup(sizes, 1))
      case Err(e) => Err(FailureOf(e))
      case Ok(dst) =>
        PaintedIsValid(src, regions, Lookup(sizes, 1));
        match lib.encode(dst)
        case None => Err(ProcessingFailed)
        case Some(bytes) => Ok(bytes)
  }

  lemma PaintedIsValid(src: Picture, regions: seq<Region>, api: Option<PageSize>)
    requires src.Valid() && MaskedPicture(src, regions, api).Ok?
    ensures MaskedPicture(src, regions, api).value.Valid()
  {
  }

  function DrawPdf(lib: Library, upload: Bytes, regions: seq<Region>, sizes: map<int, PageSize>): Result<Bytes, Failure>
  {
    match lib.pageSizes(upload)
    case None => Err(ProcessingFailed)
    case Some(pages) =>
      match if regions == [] then Err(BadUpload) else StampAll(pages, sizes, regions)
      case Err(e) => Err(FailureOf(e))
      case Ok(stamps) =>
        match lib.stamp(upload, stamps)
        case None => Err(ProcessingFailed)
        case Some(bytes) => Ok(bytes)
  }

  function Draw(lib: Library, kind: MimeKind, upload: Bytes, regions: seq<Region>,
          sizes: map<int, PageSize>): Result<Bytes, Failure>
  {
    match kind
    case Pdf => DrawPdf(lib, upload, regions, sizes)
    case Image => DrawImage(lib, upload, regions, sizes)
    case Other => Err(ProcessingFailed)
  }

  /** The decision tree over what the two walks collected; a null payload is an answer that is not JSON. */
  function Decide(lib: Library, kind: MimeKind, upload: Bytes, payload: Json, sizes: map<int, PageSize>,
          regions: seq<Region>, entries: seq<FieldEntry>): Result<Handout, Failure>
  {
    if payload == Null then Err(Unrecognized)
    else if entries == [] && (ContainsGeometry(payload) || DetectSchema(payload) == "") then Err(Unrecognized)
    else if entries != [] && regions == [] then Err(MaskingFailed)
    else if MissingKeys(entries) != [] then Err(MaskingFailed)
    else if regions == [] then Ok(Handout(upload, 0))
    else
      match Draw(lib, kind, upload, regions, sizes)
      case Err(e) => Err(e)
      case Ok(bytes) => if bytes == upload then Err(MaskingFailed) else Ok(Handout(bytes, |regions|))
  }

  method DrawDocument(lib: Library, kind: MimeKind, upload: Bytes, regions: seq<Region>, sizes: map<int, PageSize>)
    returns (r: Result<Bytes, Failure>)
    ensures r == Draw(lib, kind, upload, regions, sizes)
  {
    match kind {
      case Other => r := Err(ProcessingFailed);
      case Image =>
        match lib.decode(upload) {
          case None => r := Err(ProcessingFailed);
          case Some(src) =>
            var painted := MaskImage(src, regions, Lookup(sizes, 1));
            match painted {
              case Err(e) => r := Err(FailureOf(e));
              case Ok(dst) =>
                PaintedIsValid(src, regions, Lookup(sizes, 1));
                var encoded := lib.encode(dst);
                r := if encoded.Some? then Ok(encoded.value) else Err(ProcessingFailed);
            }
        }
      case Pdf =>
        match lib.pageSizes(upload) {
          case None => r := Err(ProcessingFailed);
          case Some(pages) =>
            var stamped := StampPdf(pages, sizes, regions);
            match stamped {
              case Err(e) => r := Err(FailureOf(e));
              case Ok(stamps) =>
                var bytes := lib.stamp(upload, stamps);
                r := if bytes.Some? then Ok(bytes.value) else Err(ProcessingFailed);
            }
        }
    }
  }

  /** The outcome of processing one answer in some pair of visiting orders. */
  ghost predicate Outcome(lib: Library, rules: RuleTable, kind: MimeKind, upload: Bytes, payload: Json,
          sizes: map<int, PageSize>, t1: seq<Members>, t2: seq<Members>, r: Result<Handout, Failure>)
  {
    TrailOf(t1, payload) && TrailOf(t2, payload) &&
    r == Decide(lib, kind, upload, payload, sizes, RegionsAlong(rules, t1), EntriesOf(rules, t2))
  }

  /** The outcome and the summary of some pair of visiting orders. */
  ghost predicate SomeOutcome(lib: Library, rules: RuleTable, kind: MimeKind, upload: Bytes, payload: Json,
          sizes: map<int, PageSize>, r: Result<Handout, Failure>, summary: seq<FieldEntry>)
  {
    exists t1, t2 :: Walk(payload, t1) && Walk(payload, t2) && summary == EntriesOf(rules, t2)
                     && Outcome(lib, rules, kind, upload, payload, sizes, t1, t2, r)
  }

  /** Processes an accepted upload once the endpoint has answered. */
  method Process(lib: Library, rules: RuleTable, kind: MimeKind, upload: Bytes, payload: Json,
          sizes: map<int, PageSize>)
    returns (r: Result<Handout, Failure>, summary: seq<FieldEntry>)
    ensures SomeOutcome(lib, rules, kind, upload, payload, sizes, r, summary)
  {
    hide RegionsAlong, EntriesOf, ContainsGeometry, MissingKeys, DetectSchema, Draw, TrailOf;
    var regions := CollectMaskRegions(rules, payload);
    summary := BuildFieldEntries(rules, payload);
    r := Decision(lib, kind, upload, payload, sizes, regions, summary);
    ghost var t1 :| Walk(payload, t1) && regions == RegionsAlong(rules, t1);
    ghost var t2 :| Walk(payload, t2) && summary == EntriesOf(rules, t2);
    WalkIsATrail(t1, payload);
    WalkIsATrail(t2, payload);
    assert Outcome(lib, rules, kind, upload, payload, sizes, t1, t2, r);
  }

  /** The checks after the walks, in order, and the drawing. */
  method Decision(lib: Library, kind: MimeKind, upload: Bytes, payload: Json, sizes: map<int, PageSize>,
          regions: seq<Region>, summary: seq<FieldEntry>)
    returns (r: Result<Handout, Failure>)
    ensures r == Decide(lib, kind, upload, payload, sizes, regions, summary)
  {
    hide ContainsGeometry, MissingKeys, DetectSchema, Draw;
    if payload == Null {
      return Err(Unrecognized);
    }
    if |summary| == 0 {
      if ContainsGeometry(payload) || DetectSchema(payload) == "" {
        return Err(Unrecognized);
      }
    }
    if |summary| > 0 && |regions| == 0 {
      return Err(MaskingFailed);
    }
    var missing := FieldsMissingGeometry(summary);
    if |missing| > 0 {
      return Err(MaskingFailed);
    }
    var content := upload;
    if |regions| > 0 {
      var drawn := DrawDocument(lib, kind, upload, regions, sizes);
      if drawn.Err? {
        return Err(drawn.error);
      }
      content := drawn.value;
      if content == upload {
        return Err(MaskingFailed);
      }
    }
    r := Ok(Handout(content, |regions|));
  }

  // ----- what the decision guarantees -----

  /** On success no region, an unchanged document and an empty summary are one and the same thing. */
  lemma UnchangedMeansNothingReported(lib: Library, rules: RuleTable, kind: MimeKind, upload: Bytes, payload: Json,
          sizes: map<int, PageSize>, t1: seq<Members>, t2: seq<Members>, r: Result<Handout, Failure>)
    requires Outcome(lib, rules, kind, upload, payload, sizes, t1, t2, r) && r.Ok?
    ensures r.value.appliedRegions == 0 <==> r.value.content == upload
    ensures r.value.appliedRegions == 0 <==> EntriesOf(rules, t2) == []
    ensures r.value.appliedRegions == |RegionsAlong(rules, t1)|
  {
    WalksInTermsOfTheTree(rules, payload, t1, t2);
    DecisionTree(lib, kind, upload, payload, sizes, RegionsAlong(rules, t1), EntriesOf(rules, t2));
    hide *;
  }

  lemma DrawIsNeverUnrecognized(lib: Library, kind: MimeKind, upload: Bytes, regions: seq<Region>,
          sizes: map<int, PageSize>)
    ensures Draw(lib, kind, upload, regions, sizes) != Err(Unrecognized)
  {
    hide MaskedPicture, StampAll;
  }

  /** The answer is an object with one of the members that list fields, documents, groups or entities. */
  predicate ListsEntities(payload: Json) {
    payload.Obj? && exists name | name in ["fields", "document", "documents", "groups", "entities"] ::
      name in payload.members
  }

  /** The known schemas are told by the members of the answer itself. */
  lemma SchemaIsKnownIff(payload: Json)
    ensures DetectSchema(payload) != "" <==> ListsEntities(payload)
    ensures DetectSchema(payload) == "oac" <==> payload.Obj? && "fields" in payload.members
    ensures DetectSchema(payload) in ["", "oac", "ufp"]
  {
    assert |"oac"| == 3 && |"ufp"| == 3 && "oac"[0] != "ufp"[0];
    if payload.Obj? {
      var names := ["fields", "document", "documents", "groups", "entities"];
      assert names[0] in names && names[1] in names && names[2] in names && names[3] in names && names[4] in names;
    }
  }

  /** The decision tree seen from its results. */
  lemma DecisionTree(lib: Library, kind: MimeKind, upload: Bytes, payload: Json, sizes: map<int, PageSize>,
          regions: seq<Region>, entries: seq<FieldEntry>)
    requires entries == [] ==> regions == []
    ensures var r := Decide(lib, kind, upload, payload, sizes, regions, entries);
            var known := ListsEntities(payload) && !ContainsGeometry(payload);
            && (r == Ok(Handout(upload, 0)) <==> entries == [] && known)
            && (r == Err(Unrecognized) <==> payload == Null || (entries == [] && !known))
            && (r.Ok? ==> r.value.appliedRegions == |regions|
                          && (regions == [] <==> entries == []) && (regions == [] <==> r.value.content == upload)
                          && (regions != [] ==> Draw(lib, kind, upload, regions, sizes) == Ok(r.value.content)))
  {
    DrawIsNeverUnrecognized(lib, kind, upload, regions, sizes);
    assert MissingKeys([]) == [];
    SchemaIsKnownIff(payload);
    hide Draw, ContainsGeometry, MissingKeys, DetectSchema;
  }

  /** No object of the answer reports a key and a value. */
  ghost predicate ReportsNothing(payload: Json) {
    forall m | m in Objects(payload) :: EntityOf(m).None?
  }

  /** Some object of the answer carries coordinates. */
  ghost predicate CarriesCoordinates(payload: Json) {
    exists m :: m in Objects(payload) && HasGeometryHints(m)
  }

  lemma WalksInTermsOfTheTree(rules: RuleTable, payload: Json, t1: seq<Members>, t2: seq<Members>)
    requires TrailOf(t1, payload) && TrailOf(t2, payload)
    ensures EntriesOf(rules, t2) == [] <==> ReportsNothing(payload)
    ensures EntriesOf(rules, t2) == [] ==> RegionsAlong(rules, t1) == []
    ensures ContainsGeometry(payload) <==> CarriesCoordinates(payload)
    ensures MissingKeys([]) == []
  {
    NoEntryIffNoEntity(rules, payload, t2);
    WalksAgreeOnBoxes(rules, payload, t1, t2);
    ContainsGeometryIff(payload);
    hide EntriesOf, RegionsAlong, ContainsGeometry, HasGeometryHints, EntityOf;
  }

  /** The document comes back untouched exactly when a known schema reports no entity and no coordinates at all. */
  lemma HandedOutUntouchedIff(lib: Library, rules: RuleTable, kind: MimeKind, upload: Bytes, payload: Json,
          sizes: map<int, PageSize>, t1: seq<Members>, t2: seq<Members>, r: Result<Handout, Failure>)
    requires Outcome(lib, rules, kind, upload, payload, sizes, t1, t2, r)
    ensures r == Ok(Handout(upload, 0)) <==>
            ListsEntities(payload) && ReportsNothing(payload) && !CarriesCoordinates(payload)
  {
    WalksInTermsOfTheTree(rules, payload, t1, t2);
    DecisionTree(lib, kind, upload, payload, sizes, RegionsAlong(rules, t1), EntriesOf(rules, t2));
    hide *;
  }

  /** An answer is called unrecognized exactly when it is no JSON, or reports nothing in an unbelievable way. */
  lemma UnrecognizedIff(lib: Library, rules: RuleTable, kind: MimeKind, upload: Bytes, payload: Json,
          sizes: map<int, PageSize>, t1: seq<Members>, t2: seq<Members>, r: Result<Handout, Failure>)
    requires Outcome(lib, rules, kind, upload, payload, sizes, t1, t2, r)
    ensures r == Err(Unrecognized) <==>
            || payload == Null
            || (ReportsNothing(payload) && (!ListsEntities(payload) || CarriesCoordinates(payload)))
  {
    WalksInTermsOfTheTree(rules, payload, t1, t2);
    DecisionTree(lib, kind, upload, payload, sizes, RegionsAlong(rules, t1), EntriesOf(rules, t2));
    hide *;
  }

  /** On success every entity under a named rule was located somewhere, and its regions were among those drawn. */
  lemma SuccessMeansEverythingLocated(lib: Library, rules: RuleTable, kind: MimeKind, upload: Bytes, payload: Json,
          sizes: map<int, PageSize>, t1: seq<Members>, t2: seq<Members>, r: Result<Handout, Failure>, entity: Entity)
    requires Outcome(lib, rules, kind, upload, payload, sizes, t1, t2, r) && r.Ok?
    requires SignaturesDistinct(payload) && InTree(payload, entity) && UnderSupportedRule(rules, entity)
    ensures exists m :: m in Objects(payload) && Reports(m, entity) && Located(m) && RegionsOf(rules, m) != []
                        && forall region | region in RegionsOf(rules, m) :: region in RegionsAlong(rules, t1)
  {
    hide EntriesOf, RegionsAlong, RegionsOf, Draw, ContainsGeometry, EntityOf, MissingKeys, UnderSupportedRule;
    NothingMissingMeansEverythingDrawn(rules, payload, t1, t2, entity);
  }

  /** The region has its place on the document. */
  predicate Placed(lib: Library, kind: MimeKind, upload: Bytes, sizes: map<int, PageSize>, region: Region) {
    match kind
    case Image =>
      lib.decode(upload).Some? && PlaceRegion(region, Lookup(sizes, 1), lib.decode(upload).value.Size()).Ok?
    case Pdf => lib.pageSizes(upload).Some? && PlaceOnPage(lib.pageSizes(upload).value, sizes, region).Ok?
    case Other => false
  }

  lemma DrawnMeansPlaced(lib: Library, kind: MimeKind, upload: Bytes, regions: seq<Region>, sizes: map<int, PageSize>,
          region: Region)
    requires Draw(lib, kind, upload, regions, sizes).Ok? && region in regions
    ensures Placed(lib, kind, upload, sizes, region)
  {
    hide PlaceRegion, PlaceOnPage;
    match kind
    case Image => PlacedRects(lib.decode(upload).value, regions, Lookup(sizes, 1));
    case Pdf => EveryRegionIsStamped(lib.pageSizes(upload).value, sizes, regions);
  }

  /** All or nothing: on success every region of every object of the answer has its place on the document. */
  lemma SuccessPlacesEveryRegion(lib: Library, rules: RuleTable, kind: MimeKind, upload: Bytes, payload: Json,
          sizes: map<int, PageSize>, t1: seq<Members>, t2: seq<Members>, r: Result<Handout, Failure>, m: Members,
          region: Region)
    requires Outcome(lib, rules, kind, upload, payload, sizes, t1, t2, r) && r.Ok?
    requires m in Objects(payload) && region in RegionsOf(rules, m)
    ensures region in RegionsAlong(rules, t1) && r.value.appliedRegions == |RegionsAlong(rules, t1)|
    ensures Placed(lib, kind, upload, sizes, region)
  {
    TrailMembers(t1, payload);
    RegionsAlongHave(rules, t1, region);
    WalksInTermsOfTheTree(rules, payload, t1, t2);
    DecisionTree(lib, kind, upload, payload, sizes, RegionsAlong(rules, t1), EntriesOf(rules, t2));
    hide Decide, RegionsAlong, RegionsOf, EntriesOf, Draw, Placed;
    DrawnMeansPlaced(lib, kind, upload, RegionsAlong(rules, t1), sizes, region);
  }

  /** What a handed out document with regions is: a picture or stamped pages that hide every entity of the answer, and
      differ from the upload only by what is drawn for it. */
  ghost predicate HidesTheAnswer(lib: Library, rules: RuleTable, kind: MimeKind, upload: Bytes, payload: Json,
          sizes: map<int, PageSize>, content: Bytes)
  {
    match kind
    case Image =>
      exists src: ValidPicture, dst: ValidPicture :: ImageHandout(lib, upload, content, src, dst)
                   && KeepsTheRest(rules, payload, src, dst, Lookup(sizes, 1))
                   && forall m | m in Objects(payload) :: ImageHides(rules, m, dst, Lookup(sizes, 1))
    case Pdf =>
      exists pages, stamps :: PdfHandout(lib, upload, content, pages, stamps)
                   && StampsOnlyTheAnswer(rules, payload, pages, sizes, stamps)
                   && forall m | m in Objects(payload) :: PdfHides(rules, m, stamps, pages, sizes)
    case Other => false
  }

  predicate ImageHandout(lib: Library, upload: Bytes, content: Bytes, src: ValidPicture, dst: ValidPicture) {
    lib.decode(upload) == Some(src) && lib.encode(dst) == Some(content)
  }

  predicate PdfHandout(lib: Library, upload: Bytes, content: Bytes, pages: seq<PageSize>, stamps: seq<PageStamp>) {
    lib.pageSizes(upload) == Some(pages) && lib.stamp(upload, stamps) == Some(content)
  }

  /** A document handed out with any change hides everything the answer reported. */
  lemma SuccessHidesTheAnswer(lib: Library, rules: RuleTable, kind: MimeKind, upload: Bytes, payload: Json,
          sizes: map<int, PageSize>, t1: seq<Members>, t2: seq<Members>, r: Result<Handout, Failure>)
    requires Outcome(lib, rules, kind, upload, payload, sizes, t1, t2, r) && r.Ok? && r.value.appliedRegions > 0
    ensures HidesTheAnswer(lib, rules, kind, upload, payload, sizes, r.value.content)
  {
    WalksInTermsOfTheTree(rules, payload, t1, t2);
    DecisionTree(lib, kind, upload, payload, sizes, RegionsAlong(rules, t1), EntriesOf(rules, t2));
    hide Decide, RegionsAlong, EntriesOf, Draw, TrailOf, HidesTheAnswer;
    DrawnContentHidesTheAnswer(lib, rules, kind, upload, payload, sizes, t1, r.value.content);
  }

  lemma DrawnContentHidesTheAnswer(lib: Library, rules: RuleTable, kind: MimeKind, upload: Bytes, payload: Json,
          sizes: map<int, PageSize>, t1: seq<Members>, content: Bytes)
    requires TrailOf(t1, payload) && Draw(lib, kind, upload, RegionsAlong(rules, t1), sizes) == Ok(content)
    ensures HidesTheAnswer(lib, rules, kind, upload, payload, sizes, content)
  {
    hide RegionsAlong, HidesTheAnswer, TrailOf, DrawImage, DrawPdf;
    match kind
    case Image => ImageSuccess(lib, rules, upload, payload, sizes, t1, content);
    case Pdf => PdfSuccess(lib, rules, upload, payload, sizes, t1, content);
  }

  lemma ImageSuccess(lib: Library, rules: RuleTable, upload: Bytes, payload: Json, sizes: map<int, PageSize>,
          t1: seq<Members>, content: Bytes)
    requires TrailOf(t1, payload) && DrawImage(lib, upload, RegionsAlong(rules, t1), sizes) == Ok(content)
    ensures HidesTheAnswer(lib, rules, Image, upload, payload, sizes, content)
  {
    hide RegionsAlong, ImageHides, MaskedPicture, KeepsTheRest;
    var regions, api := RegionsAlong(rules, t1), Lookup(sizes, 1);
    var src: ValidPicture := lib.decode(upload).value;
    PaintKeepsSize(src, regions, api);
    var dst: ValidPicture := MaskedPicture(src, regions, api).value;
    forall m | m in Objects(payload)
      ensures ImageHides(rules, m, dst, api)
    {
      MaskedImageHidesTheTree(rules, payload, t1, src, api, m);
    }
    MaskedImageKeepsTheRest(rules, payload, t1, src, api);
    assert ImageHandout(lib, upload, content, src, dst);
  }

  lemma PaintKeepsSize(src: Picture, regions: seq<Region>, api: Option<PageSize>)
    requires src.Valid() && MaskedPicture(src, regions, api).Ok?
    ensures var dst := MaskedPicture(src, regions, api).value;
            dst.Valid() && dst.width == src.width && dst.height == src.height
  {
  }

  lemma PdfSuccess(lib: Library, rules: RuleTable, upload: Bytes, payload: Json, sizes: map<int, PageSize>,
          t1: seq<Members>, content: Bytes)
    requires TrailOf(t1, payload) && DrawPdf(lib, upload, RegionsAlong(rules, t1), sizes) == Ok(content)
    ensures HidesTheAnswer(lib, rules, Pdf, upload, payload, sizes, content)
  {
    hide RegionsAlong, PdfHides, StampAll, StampsOnlyTheAnswer;
    var regions := RegionsAlong(rules, t1);
    var pages := lib.pageSizes(upload).value;
    var stamps := StampAll(pages, sizes, regions).value;
    forall m | m in Objects(payload)
      ensures PdfHides(rules, m, stamps, pages, sizes)
    {
      StampedPdfHidesTheTree(rules, payload, t1, pages, sizes, m);
    }
    StampedPdfKeepsTheRest(rules, payload, t1, pages, sizes);
    assert PdfHandout(lib, upload, content, pages, stamps);
  }

  /** For an image, the same answer leads to the same outcome in every visiting order. */
  lemma ImageOutcomeDoesNotDependOnTheOrder(lib: Library, rules: RuleTable, upload: Bytes, payload: Json,
          sizes: map<int, PageSize>, t1: seq<Members>, t2: seq<Members>, r: Result<Handout, Failure>, u1: seq<Members>,
          u2: seq<Members>, q: Result<Handout, Failure>)
    requires Outcome(lib, rules, Image, upload, payload, sizes, t1, t2, r)
    requires Outcome(lib, rules, Image, upload, payload, sizes, u1, u2, q)
    requires SignaturesDistinct(payload)
    ensures r == q
  {
    var a, b := RegionsAlong(rules, t1), RegionsAlong(rules, u1);
    WalksInTermsOfTheTree(rules, payload, t1, t2);
    WalksInTermsOfTheTree(rules, payload, u1, u2);
    RegionsDoNotDependOnTheOrder(rules, t1, u1);
    NothingMissingInAnyOrder(rules, payload, t2, u2);
    hide RegionsAlong, EntriesOf, ContainsGeometry, MissingKeys, ReportsNothing, CarriesCoordinates, Decide;
    SameMembers(a, b);
    DecisionOnAnImage(lib, upload, payload, sizes, a, EntriesOf(rules, t2), b, EntriesOf(rules, u2));
  }

  lemma SameMembers<T>(a: seq<T>, b: seq<T>)
    requires multiset(a) == multiset(b)
    ensures |a| == |b| && forall x :: x in a <==> x in b
  {
    assert |a| == |multiset(a)| == |multiset(b)| == |b|;
    assert forall x :: x in a <==> x in multiset(a);
    assert forall x :: x in b <==> x in multiset(b);
  }

  lemma DecisionOnAnImage(lib: Library, upload: Bytes, payload: Json, sizes: map<int, PageSize>, a: seq<Region>,
          d: seq<FieldEntry>, b: seq<Region>, e: seq<FieldEntry>)
    requires |a| == |b| && forall x :: x in a <==> x in b
    requires d == [] <==> e == []
    requires MissingKeys(d) == [] <==> MissingKeys(e) == []
    ensures Decide(lib, Image, upload, payload, sizes, a, d) == Decide(lib, Image, upload, payload, sizes, b, e)
  {
    ImageDrawDoesNotDependOnTheOrder(lib, upload, a, b, sizes);
    hide DrawImage, ContainsGeometry, MissingKeys;
  }

  lemma ImageDrawDoesNotDependOnTheOrder(lib: Library, upload: Bytes, a: seq<Region>, b: seq<Region>,
          sizes: map<int, PageSize>)
    requires forall x :: x in a <==> x in b
    ensures DrawImage(lib, upload, a, sizes) == DrawImage(lib, upload, b, sizes)
  {
    if lib.decode(upload).Some? {
      PictureDoesNotDependOnTheOrder(lib.decode(upload).value, a, b, Lookup(sizes, 1));
    }
    hide MaskedPicture;
  }

  lemma NothingMissingInAnyOrder(rules: RuleTable, tree: Json, t: seq<Members>, u: seq<Members>)
    requires TrailOf(t, tree) && TrailOf(u, tree) && SignaturesDistinct(tree)
    ensures MissingKeys(EntriesOf(rules, t)) == [] <==> MissingKeys(EntriesOf(rules, u)) == []
  {
    hide MissingKeys, EntriesOf, Unlocated;
    var a, b := MissingKeys(EntriesOf(rules, t)), MissingKeys(EntriesOf(rules, u));
    if a != [] {
      MissingGeometryIsExact(rules, tree, t, a[0]);
      MissingGeometryIsExact(rules, tree, u, a[0]);
    }
    if b != [] {
      MissingGeometryIsExact(rules, tree, t, b[0]);
      MissingGeometryIsExact(rules, tree, u, b[0]);
    }
  }
}
