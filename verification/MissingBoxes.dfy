/** Exactly when a field without coordinates is reported as missing, whether or not signatures collide. */
module MissingBoxes {
  import opened Wrappers
  import opened Runes
  import opened MaskPolicy
  import opened JsonTree
  import opened WalkOrders
  import opened Masking
  import opened Collectors
  import opened WalkAgreement

  predicate FirstSighting(trail: seq<Members>, i: nat, sig: string) {
    i < |trail| && Sighted(trail[i], sig) && forall j | 0 <= j < i :: !Sighted(trail[j], sig)
  }

  lemma {:induction false} SomeFirstSighting(trail: seq<Members>, sig: string) returns (i: nat)
    requires SomeSighting(trail, sig)
    ensures FirstSighting(trail, i, sig)
    decreases |trail|
  {
    hide Sighted;
    var front := trail[..|trail| - 1];
    if m :| m in front && Sighted(m, sig) {
      i := SomeFirstSighting(front, sig);
    } else {
      i := |trail| - 1;
      assert forall m :: m in trail ==> m in front || m == trail[i];
    }
  }

  /** What the summary says of a sighted object: its key, its value as masked under the rule of the key, its confidence,
      and its page, or else that of its first box. */
  predicate Summarizes(rules: RuleTable, m: Members, e: FieldEntry) {
    && EntityOf(m) == Some(Entity(e.key, e.value))
    && e.masked == MaskValue(rules(e.key), e.value)
    && e.applied == (if forall i | 0 <= i < |e.value| :: IsSpace(e.value[i]) then Empty else By(rules(e.key)))
    && (if "confidence" in m && m["confidence"].Number? then e.confidence == Some(m["confidence"].number)
        else if "entityConfidence" in m && m["entityConfidence"].Number?
        then e.confidence == Some(m["entityConfidence"].number)
        else e.confidence == None)
    && e.page == if PageOf(m) > 0 then PageOf(m) else if |BoxesOf(m)| > 0 then BoxesOf(m)[0].page else 0
  }

  lemma TheBoxMarkIsNotSummarized(rules: RuleTable, m: Members, e: FieldEntry, f: FieldEntry)
    requires Summarizes(rules, m, e) && e.(boxed := false) == f.(boxed := false)
    ensures Summarizes(rules, m, f)
  {
    hide EntityOf, MaskValue, PageOf, BoxesOf;
  }

  lemma SightingsKeepEntries(rules: RuleTable, st: Collected, m: Members, n: nat)
    requires Consistent(st) && n < |st.entries|
    ensures n < |AddSighting(rules, st, m).entries|
    ensures AddSighting(rules, st, m).entries[n].(boxed := false) == st.entries[n].(boxed := false)
  {
    hide EntityOf, BoxesOf, MaskValue, AppliedRule, PageOf, Confidence;
  }

  lemma AFirstSightingIsAppended(rules: RuleTable, st: Collected, m: Members)
    requires Consistent(st) && EntityOf(m).Some? && SignatureOf(m) !in st.seen
    ensures |AddSighting(rules, st, m).entries| == |st.entries| + 1
    ensures Summarizes(rules, m, AddSighting(rules, st, m).entries[|st.entries|])
  {
    AppliedRuleIs(rules(EntityOf(m).value.key), EntityOf(m).value.value);
    hide EntityOf, BoxesOf, MaskValue, AppliedRule, PageOf, Signature, IsSpace;
  }

  lemma NotYetSighted(trail: seq<Members>)
    requires trail != [] && EntityOf(trail[|trail| - 1]).Some?
    requires FirstSighting(trail, |trail| - 1, SignatureOf(trail[|trail| - 1]))
    ensures !SomeSighting(trail[..|trail| - 1], SignatureOf(trail[|trail| - 1]))
  {
    hide Sighted, EntityOf, SignatureOf;
  }

  lemma StillTheFirst(trail: seq<Members>, i: nat, sig: string)
    requires i + 1 < |trail| && FirstSighting(trail, i, sig)
    ensures FirstSighting(trail[..|trail| - 1], i, sig)
  {
    hide Sighted;
  }

  lemma SeenMeansSighted(rules: RuleTable, trail: seq<Members>, sig: string)
    ensures sig in EntriesAlong(rules, NOTHING, trail).seen <==> SomeSighting(trail, sig)
  {
    EntriesDescribeTheirTrail(rules, trail);
    hide EntriesAlong, SomeSighting, FirstReport, SomeLocatedSighting, Consistent;
  }

  lemma EntryOfALastSighting(rules: RuleTable, trail: seq<Members>) returns (n: nat)
    requires trail != [] && EntityOf(trail[|trail| - 1]).Some?
    requires FirstSighting(trail, |trail| - 1, SignatureOf(trail[|trail| - 1]))
    ensures n < |EntriesOf(rules, trail)| && Summarizes(rules, trail[|trail| - 1], EntriesOf(rules, trail)[n])
  {
    var front, last := trail[..|trail| - 1], trail[|trail| - 1];
    var st := EntriesAlong(rules, NOTHING, front);
    assert EntriesAlong(rules, NOTHING, trail) == AddSighting(rules, st, last);
    hide EntriesAlong, AddSighting, EntityOf, SignatureOf, FirstSighting, SomeSighting, Consistent;
    NotYetSighted(trail);
    SeenMeansSighted(rules, front, SignatureOf(last));
    AFirstSightingIsAppended(rules, st, last);
    n := |st.entries|;
  }

  lemma LastSighting(rules: RuleTable, trail: seq<Members>)
    requires trail != []
    ensures EntriesAlong(rules, NOTHING, trail)
            == AddSighting(rules, EntriesAlong(rules, NOTHING, trail[..|trail| - 1]), trail[|trail| - 1])
  {
    hide AddSighting, Consistent;
  }

  lemma EntriesStay(rules: RuleTable, trail: seq<Members>, n: nat, m: Members)
    requires trail != [] && n < |EntriesOf(rules, trail[..|trail| - 1])|
    requires Summarizes(rules, m, EntriesOf(rules, trail[..|trail| - 1])[n])
    ensures n < |EntriesOf(rules, trail)| && Summarizes(rules, m, EntriesOf(rules, trail)[n])
  {
    assert Consistent(NOTHING);
    hide EntriesAlong, AddSighting, Consistent, Summarizes;
    var front, last := trail[..|trail| - 1], trail[|trail| - 1];
    var st := EntriesAlong(rules, NOTHING, front);
    assert EntriesAlong(rules, NOTHING, trail) == AddSighting(rules, st, last) by { LastSighting(rules, trail); }
    SightingsKeepEntries(rules, st, last, n);
    TheBoxMarkIsNotSummarized(rules, m, st.entries[n], AddSighting(rules, st, last).entries[n]);
  }

  /** The first sighting of a signature decides what its entry says. */
  lemma {:induction false} EntryOfAFirstSighting(rules: RuleTable, trail: seq<Members>, i: nat) returns (n: nat)
    requires i < |trail| && EntityOf(trail[i]).Some? && FirstSighting(trail, i, SignatureOf(trail[i]))
    ensures n < |EntriesOf(rules, trail)| && Summarizes(rules, trail[i], EntriesOf(rules, trail)[n])
    decreases |trail|
  {
    hide EntriesOf, EntityOf, SignatureOf, FirstSighting, Summarizes;
    if i == |trail| - 1 {
      n := EntryOfALastSighting(rules, trail);
    } else {
      var front := trail[..|trail| - 1];
      assert front[i] == trail[i];
      StillTheFirst(trail, i, SignatureOf(trail[i]));
      n := EntryOfAFirstSighting(rules, front, i);
      EntriesStay(rules, trail, n, trail[i]);
    }
  }

  /** Every entry says what the first sighting of its signature says. */
  lemma EntryIsItsFirstSighting(rules: RuleTable, trail: seq<Members>, n: nat) returns (i: nat)
    requires n < |EntriesOf(rules, trail)|
    ensures FirstSighting(trail, i, EntrySignature(EntriesOf(rules, trail)[n]))
    ensures i < |trail| && Summarizes(rules, trail[i], EntriesOf(rules, trail)[n])
    ensures Reports(trail[i], Entity(EntriesOf(rules, trail)[n].key, EntriesOf(rules, trail)[n].value))
  {
    var m := ReportBehindEntry(rules, trail, n);
    var sig := EntrySignature(EntriesOf(rules, trail)[n]);
    hide EntriesOf, EntityOf, AppliedRule, MaskValue, SomeLocatedSighting, Signature;
    assert SomeSighting(trail, sig);
    i := SomeFirstSighting(trail, sig);
    var k := EntryOfAFirstSighting(rules, trail, i);
    EntriesHaveDistinctSignatures(rules, trail, k, n);
  }

  lemma EntryIsBoxedWhenSomeSightingIs(rules: RuleTable, trail: seq<Members>, n: nat)
    requires n < |EntriesOf(rules, trail)|
    ensures var e := EntriesOf(rules, trail)[n];
            && (e.boxed <==> SomeLocatedSighting(trail, EntrySignature(e)))
            && e.applied == AppliedRule(rules(e.key), e.value)
  {
    EntriesDescribeTheirTrail(rules, trail);
    hide EntriesAlong, SomeLocatedSighting, SomeSighting, EntrySignature, Consistent, AppliedRule, MaskValue;
  }

  /** Object i of the trail is the first with its signature, reports the key under a supported rule, and no object with
      the signature has a box. */
  ghost predicate ReportedAt(rules: RuleTable, trail: seq<Members>, i: nat, key: string) {
    && i < |trail| && EntityOf(trail[i]).Some? && EntityOf(trail[i]).value.key == key
    && UnderSupportedRule(rules, EntityOf(trail[i]).value)
    && FirstSighting(trail, i, SignatureOf(trail[i])) && !SomeLocatedSighting(trail, SignatureOf(trail[i]))
  }

  /** In any one order, colliding signatures or not, a key is reported iff it is that of the first sighting of some
      signature nobody located. */
  lemma KeyIsReportedIff(rules: RuleTable, trail: seq<Members>, key: string)
    ensures key in MissingKeys(EntriesOf(rules, trail)) <==> exists i: nat :: ReportedAt(rules, trail, i, key)
  {
    var entries := EntriesOf(rules, trail);
    MissingKeysAreExact(entries);
    hide EntriesOf, MissingKeys, EntityOf, AppliedRule, SomeLocatedSighting, Signature, FirstSighting, MaskValue,
         UnderSupportedRule;
    if key in MissingKeys(entries) {
      var n :| 0 <= n < |entries| && Offends(entries[n]) && entries[n].key == key;
      var i := EntryIsItsFirstSighting(rules, trail, n);
      EntryIsBoxedWhenSomeSightingIs(rules, trail, n);
      SupportedIff(rules, Entity(entries[n].key, entries[n].value));
      assert i < |trail| by { FirstIsInside(trail, i, EntrySignature(entries[n])); }
      assert ReportedAt(rules, trail, i, key);
    }
    if i: nat :| ReportedAt(rules, trail, i, key) {
      var n := EntryOfAFirstSighting(rules, trail, i);
      EntryIsBoxedWhenSomeSightingIs(rules, trail, n);
      SupportedIff(rules, EntityOf(trail[i]).value);
      assert Offends(entries[n]);
    }
  }

  lemma FirstIsInside(trail: seq<Members>, i: nat, sig: string)
    requires FirstSighting(trail, i, sig)
    ensures i < |trail| && Sighted(trail[i], sig)
  {
  }

  // ----- one entity alone -----

  /** No other entity of the tree has the signature of this one. */
  ghost predicate Alone(tree: Json, entity: Entity) {
    forall m | m in Objects(tree) && Sighted(m, Signature(entity.key, entity.value)) :: Reports(m, entity)
  }

  lemma AloneAndUnlocated(tree: Json, trail: seq<Members>, entity: Entity)
    requires TrailOf(trail, tree) && Alone(tree, entity) && !LocatedInTree(tree, entity)
    ensures !SomeLocatedSighting(trail, Signature(entity.key, entity.value))
  {
    TrailMembers(trail, tree);
    hide EntityOf, Signature, TrailOf, Objects, Located;
    forall m | m in trail && Sighted(m, Signature(entity.key, entity.value))
      ensures !Located(m)
    {
      assert m in Objects(tree) && Reports(m, entity);
    }
  }

  /** A supported entity that nobody located and that shares its signature with no other entity is reported in every
      order of the objects. */
  lemma AloneMeansReported(rules: RuleTable, tree: Json, trail: seq<Members>, entity: Entity)
    requires TrailOf(trail, tree) && Unlocated(rules, tree, entity) && Alone(tree, entity)
    ensures entity.key in MissingKeys(EntriesOf(rules, trail))
  {
    TrailMembers(trail, tree);
    AloneAndUnlocated(tree, trail, entity);
    hide EntityOf, Signature, AppliedRule, TrailOf, Objects, Located, MissingKeys, EntriesOf, SomeLocatedSighting,
         LocatedInTree;
    var sig := Signature(entity.key, entity.value);
    var m :| m in Objects(tree) && Reports(m, entity);
    assert m in trail && Sighted(m, sig);
    assert SomeSighting(trail, sig);
    var i := SomeFirstSighting(trail, sig);
    assert Reports(trail[i], entity) by { assert trail[i] in Objects(tree); }
    assert ReportedAt(rules, trail, i, entity.key);
    KeyIsReportedIff(rules, trail, entity.key);
  }

  // ----- in every walk -----

  /** The objects of the tree that have the key, under a supported rule, and a signature that nobody located: the first
      of a signature to be visited, if it is one of these, gets the key reported. */
  ghost function Gaps(rules: RuleTable, tree: Json, key: string): set<Members> {
    set m | m in Objects(tree) && IsGap(rules, tree, key, m)
  }

  ghost predicate IsGap(rules: RuleTable, tree: Json, key: string, m: Members) {
    && EntityOf(m).Some? && EntityOf(m).value.key == key && UnderSupportedRule(rules, EntityOf(m).value)
    && forall x | x in Objects(tree) && Sighted(x, SignatureOf(m)) :: !Located(x)
  }

  /** A gap, and nothing visited before has its signature. */
  ghost predicate Opens(m: Members, gaps: set<Members>, before: multiset<Members>) {
    m in gaps && EntityOf(m).Some? && forall x | x in before :: !Sighted(x, SignatureOf(m))
  }

  /** Whatever walk of the value comes after these objects, it opens a gap: it does so at its own object, or it has
      members each of which does even when all the others come first, or a list with an item that does after the items
      before it. */
  ghost predicate Forced(j: Json, gaps: set<Members>, before: multiset<Members>)
    decreases j, 2
  {
    match j
    case Obj(members) =>
      Opens(members, gaps, before) || SomeForced(j, members.Keys, gaps, before + multiset{members})
    case Arr(items) => ItemForced(items, gaps, before)
    case _ => false
  }

  ghost predicate SomeForced(j: Json, keys: set<string>, gaps: set<Members>, before: multiset<Members>)
    requires j.Obj? && keys <= j.members.Keys
    decreases j, 1
  {
    exists some: set<string> | some <= keys ::
      some != {} && AllForced(j, some, gaps, before + ObjectsOfMembers(j, keys - some))
  }

  ghost predicate AllForced(j: Json, keys: set<string>, gaps: set<Members>, before: multiset<Members>)
    requires j.Obj? && keys <= j.members.Keys
    decreases j, 0
  {
    forall k | k in keys :: Forced(j.members[k], gaps, before)
  }

  ghost predicate ItemForced(items: seq<Json>, gaps: set<Members>, before: multiset<Members>)
    decreases items, 0
  {
    items != [] && (Forced(items[0], gaps, before) || ItemForced(items[1..], gaps, before + Objects(items[0])))
  }

  /** The trail, coming after these objects, opens a gap. */
  ghost predicate OpensAGap(trail: seq<Members>, gaps: set<Members>, before: multiset<Members>) {
    exists i: nat :: i < |trail| && Opens(trail[i], gaps, before + multiset(trail[..i]))
  }

  lemma OpensInEither(a: seq<Members>, b: seq<Members>, gaps: set<Members>, before: multiset<Members>)
    ensures OpensAGap(a + b, gaps, before) <==> OpensAGap(a, gaps, before) || OpensAGap(b, gaps, before + multiset(a))
  {
    hide Opens;
    forall i: nat | i < |a|
      ensures (a + b)[i] == a[i] && (a + b)[..i] == a[..i]
    {
    }
    forall i: nat | i < |b|
      ensures (a + b)[|a| + i] == b[i]
      ensures before + multiset((a + b)[..|a| + i]) == before + multiset(a) + multiset(b[..i])
    {
      assert (a + b)[..|a| + i] == a + b[..i];
    }
    if i: nat :| i < |a + b| && Opens((a + b)[i], gaps, before + multiset((a + b)[..i])) {
      if i >= |a| {
        var h: nat := i - |a|;
        assert Opens(b[h], gaps, before + multiset(a) + multiset(b[..h]));
      }
    }
    if i: nat :| i < |a| && Opens(a[i], gaps, before + multiset(a[..i])) {
      assert Opens((a + b)[i], gaps, before + multiset((a + b)[..i]));
    }
    if i: nat :| i < |b| && Opens(b[i], gaps, before + multiset(a) + multiset(b[..i])) {
      assert Opens((a + b)[|a| + i], gaps, before + multiset((a + b)[..|a| + i]));
    }
  }

  lemma OpensAtOnce(m: Members, gaps: set<Members>, before: multiset<Members>)
    ensures OpensAGap([m], gaps, before) <==> Opens(m, gaps, before)
  {
    hide Opens;
    assert [m][..0] == [] && before + multiset{} == before;
    assert Opens(m, gaps, before) ==> Opens([m][0], gaps, before + multiset([m][..0]));
  }

  /** The fewer objects came before, the more is forced. */
  lemma {:induction false} ForcedEarlier(j: Json, gaps: set<Members>, before: multiset<Members>,
          after: multiset<Members>)
    requires Forced(j, gaps, after) && before <= after
    ensures Forced(j, gaps, before)
    decreases j, 1
  {
    hide EntityOf, SignatureOf, Sighted;
    match j
    case Obj(members) =>
      if !Opens(members, gaps, after) {
        var some: set<string> :| some <= members.Keys && some != {}
          && AllForced(j, some, gaps, after + multiset{members} + ObjectsOfMembers(j, members.Keys - some));
        forall k | k in some
          ensures Forced(members[k], gaps, before + multiset{members} + ObjectsOfMembers(j, members.Keys - some))
        {
          ForcedEarlier(members[k], gaps, before + multiset{members} + ObjectsOfMembers(j, members.Keys - some),
            after + multiset{members} + ObjectsOfMembers(j, members.Keys - some));
        }
        assert AllForced(j, some, gaps, before + multiset{members} + ObjectsOfMembers(j, members.Keys - some));
      }
    case Arr(items) => ItemForcedEarlier(items, gaps, before, after);
  }

  lemma {:induction false} ItemForcedEarlier(items: seq<Json>, gaps: set<Members>, before: multiset<Members>,
          after: multiset<Members>)
    requires ItemForced(items, gaps, after) && before <= after
    ensures ItemForced(items, gaps, before)
    decreases items, 0
  {
    if Forced(items[0], gaps, after) {
      ForcedEarlier(items[0], gaps, before, after);
    } else {
      ItemForcedEarlier(items[1..], gaps, before + Objects(items[0]), after + Objects(items[0]));
    }
  }

  /** Where a gap is forced, every walk opens one. */
  lemma {:induction false} ForcedIsOpened(j: Json, gaps: set<Members>, before: multiset<Members>, trail: seq<Members>)
    requires Walk(j, trail) && Forced(j, gaps, before)
    ensures OpensAGap(trail, gaps, before)
    decreases j, 1
  {
    hide Opens, OpensAGap;
    match j
    case Obj(members) =>
      assert trail == [members] + trail[1..];
      OpensInEither([members], trail[1..], gaps, before);
      OpensAtOnce(members, gaps, before);
      if !Opens(members, gaps, before) {
        var some: set<string> :| some <= members.Keys && some != {}
          && AllForced(j, some, gaps, before + multiset{members} + ObjectsOfMembers(j, members.Keys - some));
        ForcedMemberIsOpened(j, members.Keys, some, gaps, before + multiset{members}, trail[1..]);
      }
    case Arr(items) => ForcedItemIsOpened(items, gaps, before, trail);
  }

  /** The first of the forced members to be visited opens a gap. */
  lemma {:induction false} ForcedMemberIsOpened(j: Json, keys: set<string>, some: set<string>, gaps: set<Members>,
          before: multiset<Members>, trail: seq<Members>)
    requires j.Obj? && keys <= j.members.Keys && WalkMembers(j, keys, trail)
    requires some <= keys && some != {} && AllForced(j, some, gaps, before + ObjectsOfMembers(j, keys - some))
    ensures OpensAGap(trail, gaps, before)
    decreases j, 0, keys
  {
    hide Opens, OpensAGap;
    var k, a, b :| k in keys && trail == a + b && Walk(j.members[k], a) && WalkMembers(j, keys - {k}, b);
    OpensInEither(a, b, gaps, before);
    if k in some {
      ForcedEarlier(j.members[k], gaps, before, before + ObjectsOfMembers(j, keys - some));
      ForcedIsOpened(j.members[k], gaps, before, a);
    } else {
      WalkVisitsEachOnce(j.members[k], a);
      AnyMemberFirst(j, keys - some, k);
      assert keys - some - {k} == keys - {k} - some;
      assert before + ObjectsOfMembers(j, keys - some) == before + multiset(a) + ObjectsOfMembers(j, keys - {k} - some);
      ForcedMemberIsOpened(j, keys - {k}, some, gaps, before + multiset(a), b);
    }
  }

  lemma {:induction false} ForcedItemIsOpened(items: seq<Json>, gaps: set<Members>, before: multiset<Members>,
          trail: seq<Members>)
    requires WalkItems(items, trail) && ItemForced(items, gaps, before)
    ensures OpensAGap(trail, gaps, before)
    decreases items, 0
  {
    hide Opens, OpensAGap;
    var a, b :| trail == a + b && Walk(items[0], a) && WalkItems(items[1..], b);
    OpensInEither(a, b, gaps, before);
    if Forced(items[0], gaps, before) {
      ForcedIsOpened(items[0], gaps, before, a);
    } else {
      WalkVisitsEachOnce(items[0], a);
      ForcedItemIsOpened(items[1..], gaps, before + multiset(a), b);
    }
  }

  /** Where none is forced, some walk opens none. */
  lemma {:induction false} UnforcedIsAvoided(j: Json, gaps: set<Members>, before: multiset<Members>)
    returns (trail: seq<Members>)
    requires !Forced(j, gaps, before)
    ensures Walk(j, trail) && !OpensAGap(trail, gaps, before)
    decreases j, 1
  {
    hide Opens;
    match j
    case Obj(members) =>
      var inner := UnforcedMembersAreAvoided(j, members.Keys, gaps, before + multiset{members});
      trail := [members] + inner;
      OpensInEither([members], inner, gaps, before);
      OpensAtOnce(members, gaps, before);
    case Arr(items) => trail := UnforcedItemsAreAvoided(items, gaps, before);
    case _ => trail := [];
  }

  /** Not all members left are forced, so one that is not can come next. */
  lemma {:induction false} UnforcedMembersAreAvoided(j: Json, keys: set<string>, gaps: set<Members>,
          before: multiset<Members>) returns (trail: seq<Members>)
    requires j.Obj? && keys <= j.members.Keys && !SomeForced(j, keys, gaps, before)
    ensures WalkMembers(j, keys, trail) && !OpensAGap(trail, gaps, before)
    decreases j, 0, keys
  {
    if keys == {} {
      trail := [];
    } else {
      var k := NextUnforced(j, keys, gaps, before);
      hide Opens, OpensAGap;
      var a := UnforcedIsAvoided(j.members[k], gaps, before);
      WalkVisitsEachOnce(j.members[k], a);
      StillUnforced(j, keys, k, gaps, before);
      var b := UnforcedMembersAreAvoided(j, keys - {k}, gaps, before + multiset(a));
      trail := a + b;
      OpensInEither(a, b, gaps, before);
    }
  }

  lemma NextUnforced(j: Json, keys: set<string>, gaps: set<Members>, before: multiset<Members>) returns (k: string)
    requires j.Obj? && keys <= j.members.Keys && keys != {} && !SomeForced(j, keys, gaps, before)
    ensures k in keys && !Forced(j.members[k], gaps, before)
  {
    hide Forced;
    assert keys - keys == {} && ObjectsOfMembers(j, {}) == multiset{};
    assert before + ObjectsOfMembers(j, keys - keys) == before;
    assert !AllForced(j, keys, gaps, before);
    k :| k in keys && !Forced(j.members[k], gaps, before);
  }

  lemma StillUnforced(j: Json, keys: set<string>, k: string, gaps: set<Members>, before: multiset<Members>)
    requires j.Obj? && keys <= j.members.Keys && k in keys && !SomeForced(j, keys, gaps, before)
    ensures !SomeForced(j, keys - {k}, gaps, before + Objects(j.members[k]))
  {
    hide AllForced;
    forall some: set<string> | some <= keys - {k} && some != {}
      ensures !AllForced(j, some, gaps, before + Objects(j.members[k]) + ObjectsOfMembers(j, keys - {k} - some))
    {
      AnyMemberFirst(j, keys - some, k);
      assert keys - some - {k} == keys - {k} - some;
      assert before + Objects(j.members[k]) + ObjectsOfMembers(j, keys - {k} - some)
        == before + ObjectsOfMembers(j, keys - some);
    }
  }

  lemma {:induction false} UnforcedItemsAreAvoided(items: seq<Json>, gaps: set<Members>, before: multiset<Members>)
    returns (trail: seq<Members>)
    requires !ItemForced(items, gaps, before)
    ensures WalkItems(items, trail) && !OpensAGap(trail, gaps, before)
    decreases items, 0
  {
    if items == [] {
      trail := [];
    } else {
      hide Opens, OpensAGap;
      var a := UnforcedIsAvoided(items[0], gaps, before);
      WalkVisitsEachOnce(items[0], a);
      var b := UnforcedItemsAreAvoided(items[1..], gaps, before + multiset(a));
      trail := a + b;
      OpensInEither(a, b, gaps, before);
    }
  }

  lemma OpensWhereReported(rules: RuleTable, tree: Json, trail: seq<Members>, key: string, i: nat)
    requires TrailOf(trail, tree) && i < |trail|
    ensures Opens(trail[i], Gaps(rules, tree, key), multiset(trail[..i])) <==> ReportedAt(rules, trail, i, key)
  {
    TrailMembers(trail, tree);
    hide EntityOf, Signature, AppliedRule, TrailOf, Objects, Located;
    assert trail[i] in Objects(tree);
    if EntityOf(trail[i]).Some? {
      var sig := SignatureOf(trail[i]);
      assert forall x :: x in multiset(trail[..i]) <==> x in trail[..i];
      assert forall h | 0 <= h < i :: trail[h] == trail[..i][h];
      assert FirstSighting(trail, i, sig) <==> forall x | x in multiset(trail[..i]) :: !Sighted(x, sig);
    }
  }

  lemma ReportedIsVisited(rules: RuleTable, trail: seq<Members>, i: nat, key: string)
    requires ReportedAt(rules, trail, i, key)
    ensures i < |trail|
  {
  }

  lemma ReportedIffOpened(rules: RuleTable, tree: Json, trail: seq<Members>, key: string)
    requires TrailOf(trail, tree)
    ensures key in MissingKeys(EntriesOf(rules, trail)) <==> OpensAGap(trail, Gaps(rules, tree, key), multiset{})
  {
    KeyIsReportedIff(rules, trail, key);
    hide Opens, ReportedAt, MissingKeys, EntriesOf, Gaps, TrailOf;
    forall i: nat | i < |trail|
      ensures Opens(trail[i], Gaps(rules, tree, key), multiset{} + multiset(trail[..i]))
        <==> ReportedAt(rules, trail, i, key)
    {
      OpensWhereReported(rules, tree, trail, key, i);
      assert multiset{} + multiset(trail[..i]) == multiset(trail[..i]);
    }
    forall i: nat | ReportedAt(rules, trail, i, key)
      ensures i < |trail|
    {
      ReportedIsVisited(rules, trail, i, key);
    }
  }

  ghost predicate ReportedInEveryWalk(rules: RuleTable, tree: Json, key: string) {
    forall trail | Walk(tree, trail) :: key in MissingKeys(EntriesOf(rules, trail))
  }

  /** A key is reported in every walk of the answer iff a gap of it is forced. */
  lemma ReportedInEveryWalkIff(rules: RuleTable, tree: Json, key: string)
    ensures ReportedInEveryWalk(rules, tree, key) <==> Forced(tree, Gaps(rules, tree, key), multiset{})
  {
    var gaps := Gaps(rules, tree, key);
    hide Gaps, Walk, Forced, MissingKeys, EntriesOf, OpensAGap;
    if Forced(tree, gaps, multiset{}) {
      forall trail | Walk(tree, trail)
        ensures key in MissingKeys(EntriesOf(rules, trail))
      {
        ForcedIsOpened(tree, gaps, multiset{}, trail);
        WalkIsATrail(trail, tree);
        ReportedIffOpened(rules, tree, trail, key);
      }
    } else {
      var trail := UnforcedIsAvoided(tree, gaps, multiset{});
      WalkIsATrail(trail, tree);
      ReportedIffOpened(rules, tree, trail, key);
    }
  }
}
