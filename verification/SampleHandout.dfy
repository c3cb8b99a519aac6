/** One answer followed through the whole decision to a document that is handed out, so the theorems on success are
    about something. Its one box is not coverable, and its hidden rune stays in sight. */
module SampleHandout {
  import opened Wrappers
  import opened MaskPolicy
  import opened Geometry
  import opened JsonTree
  import opened WalkOrders
  import opened Collectors
  import opened WalkAgreement
  import opened Painter
  import opened Coverage
  import opened NulKeys
  import opened UnsafeBoxes
  import opened FailClosed

  const UPLOAD: Bytes := [1]

  const MASKED: Bytes := [2]

  /** Libraries that read every upload as this picture and write every picture as the same other bytes. */
  function FixedLibrary(src: ValidPicture): Library {
    Library(upload => Some(src), picture => Some(MASKED), upload => None, (upload, stamps) => None)
  }

  lemma TheOnlyEntryHasABox(rules: RuleTable, m: Members)
    requires Located(m)
    ensures EntriesOf(rules, [m]) != [] && MissingKeys(EntriesOf(rules, [m])) == []
  {
    hide EntriesOf, MissingKeys, EntityOf, BoxesOf, SignatureOf, EntrySignature;
    var i := EntryWithItsSignature(rules, [m], m);
    TheBoxCountsForBoth(rules, [m], m, m);
  }

  lemma TheOnlyWalk(m: Members)
    requires forall k | k in m :: m[k].Str?
    ensures Walk(Obj(m), [m])
  {
    assert [m][1..] == [];
    NothingToWalk(Obj(m), m.Keys);
  }

  lemma {:induction false} NothingToWalk(j: Json, keys: set<string>)
    requires j.Obj? && keys <= j.members.Keys && forall k | k in j.members :: j.members[k].Str?
    ensures WalkMembers(j, keys, [])
    decreases keys
  {
    if keys != {} {
      var k :| k in keys;
      NothingToWalk(j, keys - {k});
      assert Walk(j.members[k], []);
      var nothing: seq<Members> := [];
      assert nothing + nothing == nothing;
    }
  }

  lemma OneRegionIsDrawn(src: ValidPicture, region: Region)
    requires PlaceRegion(region, None, src.Size()).Ok?
    ensures Draw(FixedLibrary(src), Image, UPLOAD, [region], map[]) == Ok(MASKED)
  {
    hide PlaceRegion, Paint;
    PlacedRects(src, [region], None);
  }

  lemma TheSampleIsDrawn(rules: RuleTable, src: ValidPicture)
    requires rules("memo") == Generic
    requires src.minX == 0 && src.minY == 0 && src.width == 100 && src.height == 100
    ensures |RegionsAlong(rules, [NarrowField()])| == 1
    ensures Draw(FixedLibrary(src), Image, UPLOAD, RegionsAlong(rules, [NarrowField()]), map[]) == Ok(MASKED)
  {
    NarrowRegions(rules);
    NarrowBoxIsPlacedElsewhere();
    assert src.Size() == PageSize(100.0, 100.0);
    hide NarrowField, RegionsOf, SubBox, PlaceRegion, MaskedPicture, Corners, UnitSafe, IsCut, HidesRune, EntityOf,
         Draw;
    var m := NarrowField();
    assert [m][..0] == [];
    assert RegionsAlong(rules, [m]) == RegionsOf(rules, m);
    OneRegionIsDrawn(src, RegionsOf(rules, m)[0]);
  }

  lemma TheSampleIsLocated()
    ensures Located(NarrowField()) && Walk(Obj(NarrowField()), [NarrowField()])
  {
    TheOnlyWalk(NarrowField());
    hide EntityOf, BoxesOf, PageOf, NarrowField, Walk;
    NarrowFieldIsRead();
  }

  /** The sample is handed out with one region drawn, although the region misses the hidden rune. */
  lemma ASampleIsHandedOut(rules: RuleTable, src: ValidPicture)
    requires rules("memo") == Generic
    requires src.minX == 0 && src.minY == 0 && src.width == 100 && src.height == 100
    ensures
      var m := NarrowField();
      && Outcome(FixedLibrary(src), rules, Image, UPLOAD, Obj(m), map[], [m], [m], Ok(Handout(MASKED, 1)))
      && SomeOutcome(FixedLibrary(src), rules, Image, UPLOAD, Obj(m), map[], Ok(Handout(MASKED, 1)),
           EntriesOf(rules, [m]))
  {
    var m := NarrowField();
    hide NarrowField, RegionsAlong, EntriesOf, MissingKeys, Draw, Walk, Located, ContainsGeometry, DetectSchema,
         FixedLibrary, TrailOf;
    TheSampleIsLocated();
    TheSampleIsDrawn(rules, src);
    WalkIsATrail([m], Obj(m));
    TheOnlyEntryHasABox(rules, m);
  }
}
