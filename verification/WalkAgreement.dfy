/** What the two walks have in common, for every tree and every visiting order. */
module WalkAgreement {
  import opened Wrappers
  import opened Runes
  import opened MaskPolicy
  import opened Masking
  import opened Geometry
  import opened JsonTree
  import opened Collectors

  predicate Located(m: Members) {
    EntityOf(m).Some? && BoxesOf(m) != []
  }

  predicate Reports(m: Members, entity: Entity) {
    EntityOf(m) == Some(entity)
  }

  // ----- regions along a trail -----

  lemma {:induction false} RegionsOfBoxesEmptyIff(boxes: seq<ParsedBox>, n: nat, alone: bool, value: string,
          spans: seq<RunScan.Span>, entityPage: int)
    requires n <= |boxes|
    ensures RegionsOfBoxes(boxes, n, alone, value, spans, entityPage) == [] <==> n == 0
  {
  }

  lemma AnObjectContributesIffLocated(rules: RuleTable, m: Members)
    ensures RegionsOf(rules, m) != [] <==> Located(m)
  {
    hide EntityOf, BoxesOf, MaskValue, MaskedRuneSpans, RegionsOfBoxes, PageOf;
    match EntityOf(m)
    case None =>
    case Some(Entity(key, value)) =>
      RegionsOfBoxesEmptyIff(BoxesOf(m), |BoxesOf(m)|, |BoxesOf(m)| == 1, value,
                             MaskedRuneSpans(value, MaskValue(rules(key), value)), PageOf(m));
  }

  lemma {:induction false} RegionsAlongHave(rules: RuleTable, trail: seq<Members>, r: Region)
    ensures r in RegionsAlong(rules, trail) <==> exists m :: m in trail && r in RegionsOf(rules, m)
  {
    hide RegionsOf;
    if trail != [] {
      RegionsAlongHave(rules, trail[..|trail| - 1], r);
      assert trail == trail[..|trail| - 1] + [trail[|trail| - 1]];
    }
  }

  lemma NoRegionIffNothingLocated(rules: RuleTable, trail: seq<Members>)
    ensures RegionsAlong(rules, trail) == [] <==> forall m | m in trail :: !Located(m)
  {
    var regions := RegionsAlong(rules, trail);
    hide RegionsAlong, RegionsOf, Located;
    if regions != [] {
      RegionsAlongHave(rules, trail, regions[0]);
      var m :| m in trail && regions[0] in RegionsOf(rules, m);
      AnObjectContributesIffLocated(rules, m);
    }
    if m :| m in trail && Located(m) {
      AnObjectContributesIffLocated(rules, m);
      var r := RegionsOf(rules, m)[0];
      RegionsAlongHave(rules, trail, r);
    }
  }

  lemma FindIn<T>(t1: seq<T>, t2: seq<T>) returns (i: nat)
    requires multiset(t1) == multiset(t2) && t1 != []
    ensures i < |t2| && t2[i] == t1[|t1| - 1]
    ensures t2 == t2[..i] + ([t1[|t1| - 1]] + t2[i + 1..])
    ensures multiset(t1[..|t1| - 1]) == multiset(t2[..i] + t2[i + 1..])
  {
    var front, m := t1[..|t1| - 1], t1[|t1| - 1];
    assert t1 == front + [m];
    assert m in multiset(t2);
    i :| 0 <= i < |t2| && t2[i] == m;
    var before, after := t2[..i], t2[i + 1..];
    assert t2 == before + ([m] + after);
    assert multiset(before + after) == multiset(before) + multiset(after);
    assert multiset(t2) == multiset(before + after) + multiset{m};
    assert multiset(t1) == multiset(front) + multiset{m};
    assert multiset(front) == multiset(t1) - multiset{m};
    assert multiset(before + after) == multiset(t2) - multiset{m};
  }

  /** Visiting the same objects in another order yields the same regions, each as often. */
  lemma {:induction false} RegionsDoNotDependOnTheOrder(rules: RuleTable, t1: seq<Members>, t2: seq<Members>)
    requires multiset(t1) == multiset(t2)
    ensures multiset(RegionsAlong(rules, t1)) == multiset(RegionsAlong(rules, t2))
  {
    hide RegionsOf;
    if t1 == [] {
      assert |multiset(t2)| == 0;
      assert t2 == [];
    } else {
      var i := FindIn(t1, t2);
      var m, before, after := t1[|t1| - 1], t2[..i], t2[i + 1..];
      RegionsDoNotDependOnTheOrder(rules, t1[..|t1| - 1], before + after);
      RegionsAlongConcat(rules, before, after);
      RegionsAlongConcat(rules, before, [m] + after);
      RegionsAlongFirst(rules, m, after);
    }
  }

  // ----- what the entries say about a trail -----

  function SignatureOf(m: Members): string
    requires EntityOf(m).Some?
  {
    Signature(EntityOf(m).value.key, EntityOf(m).value.value)
  }

  predicate Sighted(m: Members, sig: string) {
    EntityOf(m).Some? && SignatureOf(m) == sig
  }

  ghost predicate SomeSighting(trail: seq<Members>, sig: string) {
    exists m :: m in trail && Sighted(m, sig)
  }

  ghost predicate SomeLocatedSighting(trail: seq<Members>, sig: string) {
    exists m :: m in trail && Sighted(m, sig) && Located(m)
  }

  ghost predicate FirstReport(rules: RuleTable, trail: seq<Members>, e: FieldEntry) {
    && (exists m :: m in trail && Reports(m, Entity(e.key, e.value)))
    && e.masked == MaskValue(rules(e.key), e.value)
    && e.applied == AppliedRule(rules(e.key), e.value)
  }

  /** Signatures are remembered when sighted, entries stem from a sighting, and a box counts from any sighting. */
  ghost predicate Describes(rules: RuleTable, st: Collected, trail: seq<Members>) {
    && Consistent(st)
    && (forall sig :: sig in st.seen <==> SomeSighting(trail, sig))
    && (forall i | 0 <= i < |st.entries| :: FirstReport(rules, trail, st.entries[i]))
    && (forall i | 0 <= i < |st.entries| ::
          st.entries[i].boxed <==> SomeLocatedSighting(trail, EntrySignature(st.entries[i])))
  }

  lemma SightingsExtend(trail: seq<Members>, m: Members, sig: string)
    ensures SomeSighting(trail + [m], sig) <==> SomeSighting(trail, sig) || Sighted(m, sig)
    ensures SomeLocatedSighting(trail + [m], sig)
      <==> SomeLocatedSighting(trail, sig) || (Sighted(m, sig) && Located(m))
  {
    hide Sighted, Located;
    assert forall x :: x in trail + [m] <==> x in trail || x == m;
  }

  lemma FirstReportExtends(rules: RuleTable, trail: seq<Members>, m: Members, e: FieldEntry)
    requires FirstReport(rules, trail, e)
    ensures FirstReport(rules, trail + [m], e)
  {
    hide Reports, MaskValue, AppliedRule;
    var x :| x in trail && Reports(x, Entity(e.key, e.value));
    assert x in trail + [m];
  }

  lemma OneMoreSighting(rules: RuleTable, st: Collected, trail: seq<Members>, m: Members)
    requires Describes(rules, st, trail)
    ensures Describes(rules, AddSighting(rules, st, m), trail + [m])
  {
    hide MaskValue, AppliedRule, EntityOf, BoxesOf, PageOf, Confidence, Signature, SomeSighting, SomeLocatedSighting,
         FirstReport;
    var after, longer := AddSighting(rules, st, m), trail + [m];
    forall sig
      ensures sig in after.seen <==> SomeSighting(longer, sig)
    {
      SightingsExtend(trail, m, sig);
    }
    forall i | 0 <= i < |after.entries|
      ensures FirstReport(rules, longer, after.entries[i])
    {
      if i < |st.entries| {
        FirstReportExtends(rules, trail, m, st.entries[i]);
        SameReport(rules, longer, st.entries[i], after.entries[i]);
      } else {
        ReportOfNewEntry(rules, trail, m);
      }
    }
    forall i | 0 <= i < |after.entries|
      ensures after.entries[i].boxed <==> SomeLocatedSighting(longer, EntrySignature(after.entries[i]))
    {
      SightingsExtend(trail, m, EntrySignature(after.entries[i]));
      LocatedIsSighted(trail, EntrySignature(after.entries[i]));
    }
  }

  lemma LocatedIsSighted(trail: seq<Members>, sig: string)
    ensures SomeLocatedSighting(trail, sig) ==> SomeSighting(trail, sig)
  {
  }

  lemma SameReport(rules: RuleTable, trail: seq<Members>, e: FieldEntry, f: FieldEntry)
    requires FirstReport(rules, trail, e) && f == e.(boxed := f.boxed)
    ensures FirstReport(rules, trail, f)
  {
  }

  lemma ReportOfNewEntry(rules: RuleTable, trail: seq<Members>, m: Members)
    requires EntityOf(m).Some?
    ensures FirstReport(rules, trail + [m], NewEntry(rules, m, EntityOf(m).value))
  {
    hide MaskValue, AppliedRule, EntityOf, BoxesOf, PageOf, Confidence;
    assert m in trail + [m];
    assert Reports(m, EntityOf(m).value);
  }

  lemma {:induction false} EntriesDescribeTheirTrail(rules: RuleTable, trail: seq<Members>)
    ensures Describes(rules, EntriesAlong(rules, NOTHING, trail), trail)
  {
    if trail != [] {
      var front, m := trail[..|trail| - 1], trail[|trail| - 1];
      EntriesDescribeTheirTrail(rules, front);
      OneMoreSighting(rules, EntriesAlong(rules, NOTHING, front), front, m);
      assert trail == front + [m];
    }
  }

  /** Every visited entity finds an entry with its signature. */
  lemma EntryWithItsSignature(rules: RuleTable, trail: seq<Members>, m: Members) returns (i: nat)
    requires m in trail && EntityOf(m).Some?
    ensures i < |EntriesOf(rules, trail)|
    ensures EntrySignature(EntriesOf(rules, trail)[i]) == SignatureOf(m)
    ensures Located(m) ==> EntriesOf(rules, trail)[i].boxed
  {
    EntriesDescribeTheirTrail(rules, trail);
    var st := EntriesAlong(rules, NOTHING, trail);
    assert EntriesOf(rules, trail) == st.entries;
    hide EntriesOf, EntriesAlong, EntityOf, BoxesOf, Signature, FirstReport;
    assert Sighted(m, SignatureOf(m));
    assert SomeSighting(trail, SignatureOf(m));
    i := st.seen[SignatureOf(m)];
    assert Located(m) ==> SomeLocatedSighting(trail, SignatureOf(m));
  }

  lemma EntryIsReported(rules: RuleTable, trail: seq<Members>, i: nat)
    requires i < |EntriesOf(rules, trail)|
    ensures FirstReport(rules, trail, EntriesOf(rules, trail)[i])
    ensures EntriesOf(rules, trail)[i].boxed ==> SomeLocatedSighting(trail, EntrySignature(EntriesOf(rules, trail)[i]))
  {
    EntriesDescribeTheirTrail(rules, trail);
    hide FirstReport, SomeLocatedSighting, SomeSighting, EntriesAlong, EntrySignature, Consistent;
  }

  /** Every entry stems from a visited object that reports it, and a boxed one from a located sighting too. */
  lemma ReportBehindEntry(rules: RuleTable, trail: seq<Members>, i: nat) returns (m: Members)
    requires i < |EntriesOf(rules, trail)|
    ensures var e := EntriesOf(rules, trail)[i];
            && m in trail && Reports(m, Entity(e.key, e.value)) && SignatureOf(m) == EntrySignature(e)
            && e.applied == AppliedRule(rules(e.key), e.value)
            && (e.boxed ==> SomeLocatedSighting(trail, EntrySignature(e)))
  {
    EntryIsReported(rules, trail, i);
    hide EntriesOf, EntityOf, BoxesOf, Signature, AppliedRule, MaskValue, SomeLocatedSighting;
    var e := EntriesOf(rules, trail)[i];
    m :| m in trail && Reports(m, Entity(e.key, e.value));
  }

  lemma EntriesHaveDistinctSignatures(rules: RuleTable, trail: seq<Members>, i: nat, j: nat)
    requires i < |EntriesOf(rules, trail)| && j < |EntriesOf(rules, trail)|
    requires EntrySignature(EntriesOf(rules, trail)[i]) == EntrySignature(EntriesOf(rules, trail)[j])
    ensures i == j
  {
    hide AddSighting, Signature;
  }

  // ----- the walks agree -----

  /** There is nothing to draw exactly when no entry has a box, whatever the two orders were. */
  lemma WalksAgreeOnBoxes(rules: RuleTable, tree: Json, t1: seq<Members>, t2: seq<Members>)
    requires TrailOf(t1, tree) && TrailOf(t2, tree)
    ensures RegionsAlong(rules, t1) == [] <==>
            forall i | 0 <= i < |EntriesOf(rules, t2)| :: !EntriesOf(rules, t2)[i].boxed
  {
    TrailMembers(t1, tree);
    TrailMembers(t2, tree);
    NoRegionIffNothingLocated(rules, t1);
    var entries := EntriesOf(rules, t2);
    hide RegionsAlong, EntityOf, BoxesOf, Signature, EntriesOf, EntriesAlong;
    if i :| 0 <= i < |entries| && entries[i].boxed {
      var m := ReportBehindEntry(rules, t2, i);
      var x :| x in t2 && Sighted(x, EntrySignature(entries[i])) && Located(x);
      assert x in t1;
    }
    if m :| m in t1 && Located(m) {
      var i := EntryWithItsSignature(rules, t2, m);
    }
  }

  /** There are no entries exactly when no object of the tree is an entity. */
  lemma NoEntryIffNoEntity(rules: RuleTable, tree: Json, trail: seq<Members>)
    requires TrailOf(trail, tree)
    ensures EntriesOf(rules, trail) == [] <==> forall m | m in Objects(tree) :: EntityOf(m).None?
  {
    TrailMembers(trail, tree);
    var entries := EntriesOf(rules, trail);
    hide EntityOf, BoxesOf, Signature, EntriesOf, EntriesAlong, TrailOf, AppliedRule, MaskValue, SomeLocatedSighting;
    if entries != [] {
      var m := ReportBehindEntry(rules, trail, 0);
    }
    if m :| m in Objects(tree) && EntityOf(m).Some? {
      var i := EntryWithItsSignature(rules, trail, m);
    }
  }

  // ----- signatures -----

  predicate ToldApart(a: Members, b: Members) {
    EntityOf(a).Some? && EntityOf(b).Some? && SignatureOf(a) == SignatureOf(b) ==> EntityOf(a) == EntityOf(b)
  }

  /** No two different entities of the tree share a signature. */
  ghost predicate SignaturesDistinct(tree: Json) {
    forall a, b | a in Objects(tree) && b in Objects(tree) :: ToldApart(a, b)
  }

  ghost predicate KeysHaveNoNul(tree: Json) {
    forall m | m in Objects(tree) && EntityOf(m).Some? :: '\0' !in EntityOf(m).value.key
  }

  lemma NulEndsTheKey(k: string, v: string)
    requires '\0' !in k
    ensures |k| < |Signature(k, v)| && Signature(k, v)[|k|] == '\0'
    ensures forall i | 0 <= i < |k| :: Signature(k, v)[i] != '\0'
    ensures k == Signature(k, v)[..|k|] && v == Signature(k, v)[|k| + 1..]
  {
    assert forall i | 0 <= i < |k| :: Signature(k, v)[i] == k[i];
  }

  lemma SignatureIsInjective(k1: string, v1: string, k2: string, v2: string)
    requires '\0' !in k1 && '\0' !in k2
    requires Signature(k1, v1) == Signature(k2, v2)
    ensures k1 == k2 && v1 == v2
  {
    NulEndsTheKey(k1, v1);
    NulEndsTheKey(k2, v2);
    assert |k1| == |k2|;
  }

  lemma KeysWithoutNulAreEnough(tree: Json)
    requires KeysHaveNoNul(tree)
    ensures SignaturesDistinct(tree)
  {
    hide EntityOf, Signature;
    forall a, b | a in Objects(tree) && b in Objects(tree)
      ensures ToldApart(a, b)
    {
      if EntityOf(a).Some? && EntityOf(b).Some? && SignatureOf(a) == SignatureOf(b) {
        SignatureIsInjective(EntityOf(a).value.key, EntityOf(a).value.value, EntityOf(b).value.key,
          EntityOf(b).value.value);
      }
    }
  }

  predicate EntryFor(e: FieldEntry, entity: Entity) {
    e.key == entity.key && e.value == entity.value
  }

  ghost predicate Recorded(entries: seq<FieldEntry>, entity: Entity) {
    exists i :: 0 <= i < |entries| && EntryFor(entries[i], entity)
  }

  ghost predicate InTree(tree: Json, entity: Entity) {
    exists m :: m in Objects(tree) && Reports(m, entity)
  }

  ghost predicate LocatedInTree(tree: Json, entity: Entity) {
    exists m :: m in Objects(tree) && Reports(m, entity) && Located(m)
  }

  lemma Apart(tree: Json, a: Members, b: Members)
    requires SignaturesDistinct(tree) && a in Objects(tree) && b in Objects(tree)
    ensures ToldApart(a, b)
  {
  }

  lemma EntryOfEntity(rules: RuleTable, tree: Json, trail: seq<Members>, m: Members) returns (i: nat)
    requires TrailOf(trail, tree) && SignaturesDistinct(tree)
    requires m in Objects(tree) && EntityOf(m).Some?
    ensures i < |EntriesOf(rules, trail)|
    ensures EntryFor(EntriesOf(rules, trail)[i], EntityOf(m).value)
  {
    TrailMembers(trail, tree);
    hide EntriesOf, EntriesAlong, EntityOf, Located, Signature, TrailOf, SignaturesDistinct;
    i := EntryWithItsSignature(rules, trail, m);
    var x := ReportBehindEntry(rules, trail, i);
    assert x in Objects(tree);
    Apart(tree, x, m);
  }

  /** Every entity of the tree gets an entry of its own exactly when the signatures tell entities apart. */
  lemma EveryEntityIsRecordedIff(rules: RuleTable, tree: Json, trail: seq<Members>)
    requires TrailOf(trail, tree)
    ensures var entries := EntriesOf(rules, trail);
            (forall entity | InTree(tree, entity) :: Recorded(entries, entity)) <==> SignaturesDistinct(tree)
  {
    var entries := EntriesOf(rules, trail);
    hide EntriesOf, EntriesAlong, EntityOf, BoxesOf, Signature;
    if SignaturesDistinct(tree) {
      forall entity | InTree(tree, entity)
        ensures Recorded(entries, entity)
      {
        var m :| m in Objects(tree) && Reports(m, entity);
        var i := EntryOfEntity(rules, tree, trail, m);
      }
    }
    if forall entity | InTree(tree, entity) :: Recorded(entries, entity) {
      forall a, b | a in Objects(tree) && b in Objects(tree)
        ensures ToldApart(a, b)
      {
        if EntityOf(a).Some? && EntityOf(b).Some? && SignatureOf(a) == SignatureOf(b) {
          assert Reports(a, EntityOf(a).value) && Reports(b, EntityOf(b).value);
          assert InTree(tree, EntityOf(a).value) && InTree(tree, EntityOf(b).value);
          var i :| 0 <= i < |entries| && EntryFor(entries[i], EntityOf(a).value);
          var j :| 0 <= j < |entries| && EntryFor(entries[j], EntityOf(b).value);
          EntriesHaveDistinctSignatures(rules, trail, i, j);
        }
      }
    }
  }

  lemma BoxCountsFromAnySighting(tree: Json, trail: seq<Members>, entity: Entity)
    requires TrailOf(trail, tree) && SignaturesDistinct(tree) && InTree(tree, entity)
    ensures SomeLocatedSighting(trail, Signature(entity.key, entity.value)) <==> LocatedInTree(tree, entity)
  {
    TrailMembers(trail, tree);
    hide EntityOf, BoxesOf, Signature;
    var sig := Signature(entity.key, entity.value);
    var m :| m in Objects(tree) && Reports(m, entity);
    if SomeLocatedSighting(trail, sig) {
      var x :| x in trail && Sighted(x, sig) && Located(x);
      assert x in Objects(tree) && ToldApart(x, m);
    }
    if LocatedInTree(tree, entity) {
      var x :| x in Objects(tree) && Reports(x, entity) && Located(x);
      assert x in trail && Sighted(x, sig);
    }
  }

  /** An entry has a box exactly when some sighting of its entity has one. */
  lemma EntryIsBoxedIff(rules: RuleTable, tree: Json, trail: seq<Members>, i: nat)
    requires TrailOf(trail, tree) && SignaturesDistinct(tree)
    requires i < |EntriesOf(rules, trail)|
    ensures var e := EntriesOf(rules, trail)[i];
            && InTree(tree, Entity(e.key, e.value))
            && e.applied == AppliedRule(rules(e.key), e.value)
            && (e.boxed <==> LocatedInTree(tree, Entity(e.key, e.value)))
  {
    TrailMembers(trail, tree);
    var e := EntriesOf(rules, trail)[i];
    hide EntriesOf, EntriesAlong, EntityOf, BoxesOf, Signature, AppliedRule;
    var m := ReportBehindEntry(rules, trail, i);
    assert m in Objects(tree);
    var entity := Entity(e.key, e.value);
    BoxCountsFromAnySighting(tree, trail, entity);
    if LocatedInTree(tree, entity) {
      var x :| x in Objects(tree) && Reports(x, entity) && Located(x);
      var j := EntryWithItsSignature(rules, trail, x);
      EntriesHaveDistinctSignatures(rules, trail, i, j);
    }
  }

  /** The entries are the entities of the tree, each once, with a box exactly when some sighting has one. */
  lemma EntriesAreTheEntities(rules: RuleTable, tree: Json, trail: seq<Members>, entity: Entity)
    requires TrailOf(trail, tree) && SignaturesDistinct(tree)
    ensures var entries := EntriesOf(rules, trail);
            && (Recorded(entries, entity) <==> InTree(tree, entity))
            && (forall i, j | 0 <= i < |entries| && 0 <= j < |entries| && EntryFor(entries[i], entity)
              && EntryFor(entries[j], entity) :: i == j)
            && (forall i | 0 <= i < |entries| && EntryFor(entries[i], entity) ::
                  entries[i].boxed <==> LocatedInTree(tree, entity))
  {
    var entries := EntriesOf(rules, trail);
    hide EntriesOf, EntriesAlong, EntityOf, BoxesOf, Signature, LocatedInTree;
    if InTree(tree, entity) {
      var m :| m in Objects(tree) && Reports(m, entity);
      var i := EntryOfEntity(rules, tree, trail, m);
    }
    forall i | 0 <= i < |entries| && EntryFor(entries[i], entity)
      ensures InTree(tree, entity)
      ensures entries[i].boxed <==> LocatedInTree(tree, entity)
    {
      EntryIsBoxedIff(rules, tree, trail, i);
    }
    forall i, j | 0 <= i < |entries| && 0 <= j < |entries| && EntryFor(entries[i], entity)
      && EntryFor(entries[j], entity)
      ensures i == j
    {
      EntriesHaveDistinctSignatures(rules, trail, i, j);
    }
  }

  /** The set of key, value and boxed does not depend on the visiting order. */
  lemma EntriesDoNotDependOnTheOrder(rules: RuleTable, tree: Json, t1: seq<Members>, t2: seq<Members>, i: nat)
    requires TrailOf(t1, tree) && TrailOf(t2, tree) && SignaturesDistinct(tree)
    requires i < |EntriesOf(rules, t1)|
    ensures var e := EntriesOf(rules, t1)[i];
            exists j :: 0 <= j < |EntriesOf(rules, t2)|
                        && EntryFor(EntriesOf(rules, t2)[j], Entity(e.key, e.value))
                        && EntriesOf(rules, t2)[j].boxed == e.boxed
  {
    var e := EntriesOf(rules, t1)[i];
    var entity := Entity(e.key, e.value);
    assert EntryFor(e, entity);
    EntriesAreTheEntities(rules, tree, t1, entity);
    EntriesAreTheEntities(rules, tree, t2, entity);
    hide EntriesOf, EntriesAlong, InTree, LocatedInTree;
    var j :| 0 <= j < |EntriesOf(rules, t2)| && EntryFor(EntriesOf(rules, t2)[j], entity);
  }

  // ----- fields without geometry -----

  /** The value is not blank and its key has one of the twelve named rules. */
  predicate UnderSupportedRule(rules: RuleTable, entity: Entity) {
    rules(entity.key) != Generic && exists i :: 0 <= i < |entity.value| && !IsSpace(entity.value[i])
  }

  lemma SupportedIff(rules: RuleTable, entity: Entity)
    ensures Supported(AppliedRule(rules(entity.key), entity.value)) <==> UnderSupportedRule(rules, entity)
  {
    AppliedRuleIs(rules(entity.key), entity.value);
    hide AppliedRule, IsSpace;
  }

  ghost predicate Unlocated(rules: RuleTable, tree: Json, entity: Entity) {
    InTree(tree, entity) && UnderSupportedRule(rules, entity) && !LocatedInTree(tree, entity)
  }

  /** The list names exactly the keys of the supported entities that no sighting locates. */
  lemma MissingGeometryIsExact(rules: RuleTable, tree: Json, trail: seq<Members>, key: string)
    requires TrailOf(trail, tree) && SignaturesDistinct(tree)
    ensures key in MissingKeys(EntriesOf(rules, trail)) <==>
            exists value :: Unlocated(rules, tree, Entity(key, value))
  {
    var entries := EntriesOf(rules, trail);
    MissingKeysAreExact(entries);
    hide EntriesOf, EntriesAlong, MissingKeys, InTree, LocatedInTree, AppliedRule, UnderSupportedRule;
    if key in MissingKeys(entries) {
      var i :| 0 <= i < |entries| && Offends(entries[i]) && entries[i].key == key;
      EntryIsBoxedIff(rules, tree, trail, i);
      SupportedIff(rules, Entity(key, entries[i].value));
      assert Unlocated(rules, tree, Entity(key, entries[i].value));
    }
    if value :| Unlocated(rules, tree, Entity(key, value)) {
      EntriesAreTheEntities(rules, tree, trail, Entity(key, value));
      var i :| 0 <= i < |entries| && EntryFor(entries[i], Entity(key, value));
      EntryIsBoxedIff(rules, tree, trail, i);
      SupportedIff(rules, Entity(key, value));
      assert Offends(entries[i]);
    }
  }

  /** With nothing missing, every supported entity has a located sighting, and it contributes regions. */
  lemma NothingMissingMeansEverythingDrawn(rules: RuleTable, tree: Json, t1: seq<Members>, t2: seq<Members>,
          entity: Entity)
    requires TrailOf(t1, tree) && TrailOf(t2, tree) && SignaturesDistinct(tree)
    requires MissingKeys(EntriesOf(rules, t2)) == []
    requires InTree(tree, entity) && UnderSupportedRule(rules, entity)
    ensures exists m :: m in Objects(tree) && Reports(m, entity) && Located(m) && RegionsOf(rules, m) != []
                        && forall r | r in RegionsOf(rules, m) :: r in RegionsAlong(rules, t1)
  {
    MissingGeometryIsExact(rules, tree, t2, entity.key);
    assert !Unlocated(rules, tree, Entity(entity.key, entity.value));
    hide RegionsOf, EntityOf, BoxesOf, MissingKeys;
    var m :| m in Objects(tree) && Reports(m, entity) && Located(m);
    AnObjectContributesIffLocated(rules, m);
    TrailMembers(t1, tree);
    forall r | r in RegionsOf(rules, m)
      ensures r in RegionsAlong(rules, t1)
    {
      RegionsAlongHave(rules, t1, r);
    }
  }
}
