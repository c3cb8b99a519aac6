/** Whose fault a failure is: exactly when an answer is refused, and exactly when the upload is. */
module FailureCauses {
  import opened Wrappers
  import opened Geometry
  import opened JsonTree
  import opened Collectors
  import opened WalkAgreement
  import opened Painter
  import opened FailClosed

  predicate HasSize(size: PageSize) {
    size.width > 0.0 && size.height > 0.0
  }

  // ----- images -----

  /** Drawing an image fails for the upload if that cannot be decoded, has no size or cannot be encoded again, and for
      the answer if some region has no place on it. */
  lemma ImageFailsIff(lib: Library, upload: Bytes, regions: seq<Region>, sizes: map<int, PageSize>)
    requires regions != []
    ensures
      var r, src, api := DrawImage(lib, upload, regions, sizes), lib.decode(upload), Lookup(sizes, 1);
      && (r == Err(ProcessingFailed) <==>
            || src == None || !HasSize(src.value.Size())
            || (AllPlaced(src.value, regions, api) && MaskedPicture(src.value, regions, api).Ok?
                && lib.encode(MaskedPicture(src.value, regions, api).value) == None))
      && (r == Err(MaskingFailed) <==>
            src.Some? && HasSize(src.value.Size()) && !AllPlaced(src.value, regions, api))
      && r != Err(Unrecognized)
  {
    if lib.decode(upload).Some? {
      var src, api := lib.decode(upload).value, Lookup(sizes, 1);
      assert regions[0] in regions;
      if !HasSize(src.Size()) {
        NothingFitsNoSize(regions[0], api, src.Size());
      }
      PlacedRects(src, regions, api);
      if PlaceAll(src, regions, api).Err? {
        FailureKind(src, regions, api);
      }
      hide PlaceRegion, PlaceAll, Paint, AllPlaced;
    }
  }

  lemma NothingFitsNoSize(region: Region, api: Option<PageSize>, target: PageSize)
    requires !HasSize(target)
    ensures PlaceRegion(region, api, target) == Err(NoUsableDimensions)
  {
  }

  // ----- PDF pages -----

  /** The region is the first without a place, and this is why. */
  predicate FailsFirst(pages: seq<PageSize>, sizes: map<int, PageSize>, regions: seq<Region>, j: nat, e: MaskError) {
    && j < |regions| && PlaceOnPage(pages, sizes, regions[j]) == Err(e)
    && forall i | 0 <= i < j :: PlaceOnPage(pages, sizes, regions[i]).Ok?
  }

  lemma {:induction false} FirstFailureIsReported(pages: seq<PageSize>, sizes: map<int, PageSize>, regions: seq<Region>)
    returns (j: nat)
    requires StampAll(pages, sizes, regions).Err?
    ensures FailsFirst(pages, sizes, regions, j, StampAll(pages, sizes, regions).error)
  {
    hide PlaceOnPage;
    var front := regions[..|regions| - 1];
    if StampAll(pages, sizes, front).Err? {
      j := FirstFailureIsReported(pages, sizes, front);
      assert regions[j] == front[j];
    } else {
      j := |regions| - 1;
      EveryRegionIsStamped(pages, sizes, front);
      assert forall i | 0 <= i < j :: regions[i] in front;
    }
  }

  /** A region has no place for the upload's fault if its page has no size, and otherwise for the answer's. */
  lemma PageFaultIff(pages: seq<PageSize>, sizes: map<int, PageSize>, region: Region)
    ensures PlaceOnPage(pages, sizes, region) == Err(BadUpload)
      <==> 1 <= region.page <= |pages| && !HasSize(pages[region.page - 1])
    ensures region.page < 1 || region.page > |pages| ==> PlaceOnPage(pages, sizes, region) == Err(BadAnswer)
    ensures 1 <= region.page <= |pages| ==>
      (PlaceOnPage(pages, sizes, region) == Err(BadAnswer)
       <==> PlaceRegion(region, if region.page in sizes then Some(sizes[region.page]) else None, pages[region.page - 1])
            == Err(Unplaceable))
  {
  }

  /** Stamping a PDF fails for the upload if that cannot be read or stamped, and otherwise for the reason of the first
      region that has no place. */
  lemma PdfFailsIff(lib: Library, upload: Bytes, regions: seq<Region>, sizes: map<int, PageSize>)
    requires regions != []
    ensures
      var r, pages := DrawPdf(lib, upload, regions, sizes), lib.pageSizes(upload);
      && (r == Err(ProcessingFailed) <==>
            || pages == None
            || (exists j: nat :: FailsFirst(pages.value, sizes, regions, j, BadUpload))
            || (StampAll(pages.value, sizes, regions).Ok?
                && lib.stamp(upload, StampAll(pages.value, sizes, regions).value) == None))
      && (r == Err(MaskingFailed) <==>
            pages.Some? && exists j: nat :: FailsFirst(pages.value, sizes, regions, j, BadAnswer))
      && r != Err(Unrecognized)
  {
    if lib.pageSizes(upload).Some? {
      var pages := lib.pageSizes(upload).value;
      EveryRegionIsStamped(pages, sizes, regions);
      forall j: nat, e | FailsFirst(pages, sizes, regions, j, e)
        ensures StampAll(pages, sizes, regions).Err?
      {
        assert regions[j] in regions;
      }
      if StampAll(pages, sizes, regions).Err? {
        var j := FirstFailureIsReported(pages, sizes, regions);
        forall i: nat, e | FailsFirst(pages, sizes, regions, i, e)
          ensures e == StampAll(pages, sizes, regions).error
        {
          assert i == j;
        }
      }
      hide PlaceOnPage, StampAll;
    }
  }

  // ----- the whole decision -----

  /** Some entity of the answer has a box. */
  ghost predicate LocatesSomething(payload: Json) {
    exists m :: m in Objects(payload) && Located(m)
  }

  /** An answer that is JSON and reports an entity ends in exactly one of four ways. It is refused if it locates nothing
      or misses a box, if a region has no place, or if drawing changes nothing; it fails for the upload if drawing does;
      and else the drawing is handed out with the number of its regions. */
  lemma OutcomeIs(lib: Library, rules: RuleTable, kind: MimeKind, upload: Bytes, payload: Json,
          sizes: map<int, PageSize>, t1: seq<Members>, t2: seq<Members>, r: Result<Handout, Failure>)
    requires Outcome(lib, rules, kind, upload, payload, sizes, t1, t2, r) && payload != Null && !ReportsNothing(payload)
    ensures
      var missing, drawn := MissingKeys(EntriesOf(rules, t2)), Draw(lib, kind, upload, RegionsAlong(rules, t1), sizes);
      && (!LocatesSomething(payload) || missing != [] ==> r == Err(MaskingFailed))
      && (LocatesSomething(payload) && missing == [] ==>
            && (drawn == Err(MaskingFailed) || drawn == Ok(upload) ==> r == Err(MaskingFailed))
            && (drawn == Err(ProcessingFailed) ==> r == Err(ProcessingFailed))
            && (drawn.Ok? && drawn.value != upload ==> r == Ok(Handout(drawn.value, |RegionsAlong(rules, t1)|))))
      && drawn != Err(Unrecognized)
  {
    WalksInTermsOfTheTree(rules, payload, t1, t2);
    NoRegionIffNothingLocated(rules, t1);
    TrailMembers(t1, payload);
    DrawIsNeverUnrecognized(lib, kind, upload, RegionsAlong(rules, t1), sizes);
    hide RegionsAlong, EntriesOf, Draw, MissingKeys, ContainsGeometry, DetectSchema, Located, ReportsNothing, TrailOf;
  }
}
