/** The two walks over the answer: one collects field entries, the other mask regions.

    A walk visits the members of an object in an arbitrary order. Each walk therefore
    reports, as a ghost, the trail of objects it visited, and what the walk returns is a
    function of its trail. The theorems hold for every permutation of the objects unless
    they ask for a walk. */
module Collectors {
  import opened Wrappers
  import opened RunScan
  import opened MaskPolicy
  import opened Masking
  import opened Geometry
  import opened JsonTree
  import opened WalkOrders

  /** Which rule a key selects. */
  type RuleTable = string -> Rule

  ghost predicate TrailOf(trail: seq<Members>, tree: Json) {
    multiset(trail) == Objects(tree)
  }

  lemma WalkIsATrail(trail: seq<Members>, tree: Json)
    requires Walk(tree, trail)
    ensures TrailOf(trail, tree)
  {
    WalkVisitsEachOnce(tree, trail);
  }

  lemma TrailMembers(trail: seq<Members>, tree: Json)
    requires TrailOf(trail, tree)
    ensures forall m :: m in trail <==> m in Objects(tree)
  {
    assert forall m :: m in trail <==> m in multiset(trail);
  }

  // ----- mask regions -----

  function PageForBox(box: ParsedBox, entityPage: int): int {
    if box.page != 0 then box.page else if entityPage != 0 then entityPage else 1
  }

  /** A single box is cut down to the hidden runes; with several boxes each is covered in full. */
  function RegionsOfBox(box: ParsedBox, alone: bool, value: string, spans: seq<Span>,
          entityPage: int): (regions: seq<Region>)
    ensures regions != []
  {
    var page := PageForBox(box, entityPage);
    var subRegions := if alone then BuildSubRegions(box.polygon, |value|, spans) else [];
    if subRegions == [] then [Region(page, box.polygon)]
    else seq(|subRegions|, j requires 0 <= j < |subRegions| => Region(page, subRegions[j]))
  }

  function RegionsOfBoxes(boxes: seq<ParsedBox>, n: nat, alone: bool, value: string, spans: seq<Span>,
          entityPage: int): seq<Region>
    requires n <= |boxes|
  {
    if n == 0 then []
    else
      RegionsOfBoxes(boxes, n - 1, alone, value, spans, entityPage)
      + RegionsOfBox(boxes[n - 1], alone, value, spans, entityPage)
  }

  /** The regions one object contributes. */
  function RegionsOf(rules: RuleTable, m: Members): seq<Region> {
    match EntityOf(m)
    case None => []
    case Some(Entity(key, value)) =>
      var spans := MaskedRuneSpans(value, MaskValue(rules(key), value));
      var boxes := BoxesOf(m);
      RegionsOfBoxes(boxes, |boxes|, |boxes| == 1, value, spans, PageOf(m))
  }

  function RegionsAlong(rules: RuleTable, trail: seq<Members>): seq<Region> {
    if trail == [] then [] else RegionsAlong(rules, trail[..|trail| - 1]) + RegionsOf(rules, trail[|trail| - 1])
  }

  lemma {:induction false} RegionsAlongConcat(rules: RuleTable, a: seq<Members>, b: seq<Members>)
    ensures RegionsAlong(rules, a + b) == RegionsAlong(rules, a) + RegionsAlong(rules, b)
  {
    hide RegionsOf;
    if b == [] {
      assert a + b == a;
    } else {
      var front, last := b[..|b| - 1], RegionsOf(rules, b[|b| - 1]);
      RegionsAlongConcat(rules, a, front);
      assert (a + b)[..|a + b| - 1] == a + front;
      assert RegionsAlong(rules, a + b) == RegionsAlong(rules, a + front) + last;
      assert RegionsAlong(rules, b) == RegionsAlong(rules, front) + last;
      hide RegionsAlong;
      AppendTwice(RegionsAlong(rules, a), RegionsAlong(rules, front), last);
    }
  }

  lemma RegionsAlongFirst(rules: RuleTable, m: Members, rest: seq<Members>)
    ensures RegionsAlong(rules, [m] + rest) == RegionsOf(rules, m) + RegionsAlong(rules, rest)
  {
    hide RegionsOf;
    RegionsAlongConcat(rules, [m], rest);
    assert [m][..0] == [];
  }

  lemma NothingAlong(rules: RuleTable)
    ensures RegionsAlong(rules, []) == []
  {
  }

  lemma AppendTwice<T>(a: seq<T>, b: seq<T>, c: seq<T>)
    ensures a + b + c == a + (b + c)
  {
  }

  class RegionCollector {
    var regions: seq<Region>

    constructor ()
      ensures regions == []
    {
      regions := [];
    }

    method AddEntity(rules: RuleTable, m: Members)
      modifies this
      ensures regions == old(regions) + RegionsOf(rules, m)
    {
      hide MaskValue, MaskedRuneSpans, RegionsOfBox, EntityOf, BoxesOf, PageOf;
      match EntityOf(m) {
        case None =>
        case Some(Entity(key, value)) =>
          var masked, _ := ComputeMaskedValue(rules(key), value);
          var spans := ComputeMaskedRuneSpans(value, masked);
          var boxes := BoxesOf(m);
          var entityPage := PageOf(m);
          for index := 0 to |boxes|
            invariant regions == old(regions) + RegionsOfBoxes(boxes, index, |boxes| == 1, value, spans, entityPage)
          {
            regions := regions + RegionsOfBox(boxes[index], |boxes| == 1, value, spans, entityPage);
          }
      }
    }

    method Visit(rules: RuleTable, j: Json) returns (ghost trail: seq<Members>)
      modifies this
      ensures Walk(j, trail)
      ensures regions == old(regions) + RegionsAlong(rules, trail)
      decreases j, 1
    {
      hide RegionsOf, RegionsAlong;
      ghost var start := regions;
      match j {
        case Obj(members) =>
          AddEntity(rules, members);
          ghost var inner := VisitMembers(rules, j);
          trail := [members] + inner;
          RegionsAlongFirst(rules, members, inner);
          AppendTwice(start, RegionsOf(rules, members), RegionsAlong(rules, inner));
        case Arr(items) =>
          trail := VisitItems(rules, j);
        case _ =>
          trail := [];
          NothingAlong(rules);
      }
    }

    /** Members come in any order. */
    method VisitMembers(rules: RuleTable, j: Json) returns (ghost trail: seq<Members>)
      requires j.Obj?
      modifies this
      ensures Walk(j, [j.members] + trail)
      ensures regions == old(regions) + RegionsAlong(rules, trail)
      decreases j, 0
    {
      hide RegionsOf;
      trail := [];
      ghost var start := regions;
      var keys := j.members.Keys;
      NoMemberYet(j);
      while keys != {}
        invariant keys <= j.members.Keys
        invariant BeganMembers(j, keys, trail)
        invariant regions == start + RegionsAlong(rules, trail)
        decreases keys
      {
        var key :| key in keys;
        ghost var inner := Visit(rules, j.members[key]);
        OneMoreMember(j, keys, trail, key, inner);
        RegionsAlongConcat(rules, trail, inner);
        AppendTwice(start, RegionsAlong(rules, trail), RegionsAlong(rules, inner));
        trail := trail + inner;
        keys := keys - {key};
      }
      NoMemberLeft(j, trail);
    }

    method VisitItems(rules: RuleTable, j: Json) returns (ghost trail: seq<Members>)
      requires j.Arr?
      modifies this
      ensures Walk(j, trail)
      ensures regions == old(regions) + RegionsAlong(rules, trail)
      decreases j, 0
    {
      hide RegionsOf;
      trail := [];
      ghost var start := regions;
      NoItemYet(j.items);
      for index := 0 to |j.items|
        invariant BeganItems(j.items, index, trail)
        invariant regions == start + RegionsAlong(rules, trail)
      {
        ghost var inner := Visit(rules, j.items[index]);
        OneMoreItem(j.items, index, trail, inner);
        RegionsAlongConcat(rules, trail, inner);
        AppendTwice(start, RegionsAlong(rules, trail), RegionsAlong(rules, inner));
        trail := trail + inner;
      }
      NoItemLeft(j.items, trail);
    }
  }

  /** The regions that some visiting order yields. */
  ghost predicate RegionsOfTree(rules: RuleTable, tree: Json, regions: seq<Region>) {
    exists trail :: Walk(tree, trail) && regions == RegionsAlong(rules, trail)
  }

  method CollectMaskRegions(rules: RuleTable, tree: Json) returns (regions: seq<Region>)
    ensures RegionsOfTree(rules, tree, regions)
  {
    hide RegionsAlong;
    var collector := new RegionCollector();
    ghost var trail := collector.Visit(rules, tree);
    regions := collector.regions;
    assert regions == RegionsAlong(rules, trail);
  }

  // ----- field entries -----

  datatype FieldEntry = FieldEntry(key: string, value: string, masked: string, applied: Applied,
                                   confidence: Option<real>, page: int, boxed: bool)

  datatype Collected = Collected(seen: map<string, nat>, entries: seq<FieldEntry>)

  function Signature(key: string, value: string): string {
    key + "\0" + value
  }

  function EntrySignature(e: FieldEntry): string {
    Signature(e.key, e.value)
  }

  function NewEntry(rules: RuleTable, m: Members, entity: Entity): FieldEntry {
    var boxes := BoxesOf(m);
    var page := if PageOf(m) > 0 then PageOf(m) else if boxes != [] then boxes[0].page else 0;
    FieldEntry(entity.key, entity.value, MaskValue(rules(entity.key), entity.value),
               AppliedRule(rules(entity.key), entity.value), Confidence(m), page, boxes != [])
  }

  /** Every remembered signature points at its entry, and every entry is remembered. */
  ghost predicate Consistent(st: Collected) {
    && (forall sig | sig in st.seen :: st.seen[sig] < |st.entries| && EntrySignature(st.entries[st.seen[sig]]) == sig)
    && (forall i | 0 <= i < |st.entries| ::
          EntrySignature(st.entries[i]) in st.seen && st.seen[EntrySignature(st.entries[i])] == i)
  }

  function MarkBoxed(st: Collected, i: nat): (r: Collected)
    requires Consistent(st) && i < |st.entries|
    ensures Consistent(r)
  {
    st.(entries := st.entries[i := st.entries[i].(boxed := true)])
  }

  function Append(st: Collected, entry: FieldEntry): (r: Collected)
    requires Consistent(st) && EntrySignature(entry) !in st.seen
    ensures Consistent(r)
  {
    Collected(st.seen[EntrySignature(entry) := |st.entries|], st.entries + [entry])
  }

  /** One visited object: a first sighting is appended, a later one may only add that it had a box. */
  function AddSighting(rules: RuleTable, st: Collected, m: Members): (r: Collected)
    requires Consistent(st)
    ensures Consistent(r)
  {
    match EntityOf(m)
    case None => st
    case Some(entity) =>
      var sig := Signature(entity.key, entity.value);
      if sig !in st.seen then Append(st, NewEntry(rules, m, entity))
      else if BoxesOf(m) != [] then MarkBoxed(st, st.seen[sig])
      else st
  }

  const NOTHING: Collected := Collected(map[], [])

  function EntriesAlong(rules: RuleTable, st: Collected, trail: seq<Members>): (r: Collected)
    requires Consistent(st)
    ensures Consistent(r)
  {
    if trail == [] then st
    else AddSighting(rules, EntriesAlong(rules, st, trail[..|trail| - 1]), trail[|trail| - 1])
  }

  /** The entries collected along a trail, from the beginning. */
  function EntriesOf(rules: RuleTable, trail: seq<Members>): seq<FieldEntry> {
    EntriesAlong(rules, NOTHING, trail).entries
  }

  lemma {:induction false} EntriesAlongConcat(rules: RuleTable, st: Collected, a: seq<Members>, b: seq<Members>)
    requires Consistent(st)
    ensures EntriesAlong(rules, st, a + b) == EntriesAlong(rules, EntriesAlong(rules, st, a), b)
  {
    hide AddSighting, Consistent;
    if b == [] {
      assert a + b == a;
    } else {
      EntriesAlongConcat(rules, st, a, b[..|b| - 1]);
      assert (a + b)[..|a + b| - 1] == a + b[..|b| - 1];
    }
  }

  class FieldCollector {
    var seen: map<string, nat>
    var entries: seq<FieldEntry>

    function State(): Collected
      reads this
    {
      Collected(seen, entries)
    }

    constructor ()
      ensures State() == NOTHING
    {
      seen, entries := map[], [];
    }

    method AddEntity(rules: RuleTable, m: Members)
      requires Consistent(State())
      modifies this
      ensures State() == AddSighting(rules, old(State()), m)
    {
      hide MaskValue, AppliedRule, EntityOf, BoxesOf, PageOf, Confidence, Signature;
      match EntityOf(m) {
        case None =>
        case Some(Entity(key, value)) =>
          var signature := Signature(key, value);
          var boxes := BoxesOf(m);
          if signature in seen {
            if |boxes| > 0 {
              var index := seen[signature];
              entries := entries[index := entries[index].(boxed := true)];
            }
          } else {
            var masked, applied := ComputeMaskedValue(rules(key), value);
            var page := PageOf(m);
            if page <= 0 && |boxes| > 0 {
              page := boxes[0].page;
            }
            seen := seen[signature := |entries|];
            entries := entries + [FieldEntry(key, value, masked, applied, Confidence(m), page, |boxes| > 0)];
          }
      }
    }

    method Visit(rules: RuleTable, j: Json) returns (ghost trail: seq<Members>)
      requires Consistent(State())
      modifies this
      ensures Walk(j, trail)
      ensures Consistent(State()) && State() == EntriesAlong(rules, old(State()), trail)
      decreases j, 1
    {
      hide AddSighting, Consistent;
      ghost var start := State();
      match j {
        case Obj(members) =>
          AddEntity(rules, members);
          ghost var inner := VisitMembers(rules, j);
          trail := [members] + inner;
          EntriesAlongConcat(rules, start, [members], inner);
          assert [members][..0] == [];
        case Arr(items) =>
          trail := VisitItems(rules, j);
        case _ =>
          trail := [];
      }
    }

    method VisitMembers(rules: RuleTable, j: Json) returns (ghost trail: seq<Members>)
      requires j.Obj? && Consistent(State())
      modifies this
      ensures Walk(j, [j.members] + trail)
      ensures Consistent(State()) && State() == EntriesAlong(rules, old(State()), trail)
      decreases j, 0
    {
      hide AddSighting, Consistent;
      trail := [];
      ghost var start := State();
      var keys := j.members.Keys;
      NoMemberYet(j);
      while keys != {}
        invariant keys <= j.members.Keys
        invariant BeganMembers(j, keys, trail)
        invariant State() == EntriesAlong(rules, start, trail)
        decreases keys
      {
        var key :| key in keys;
        ghost var inner := Visit(rules, j.members[key]);
        OneMoreMember(j, keys, trail, key, inner);
        EntriesAlongConcat(rules, start, trail, inner);
        trail := trail + inner;
        keys := keys - {key};
      }
      NoMemberLeft(j, trail);
    }

    method VisitItems(rules: RuleTable, j: Json) returns (ghost trail: seq<Members>)
      requires j.Arr? && Consistent(State())
      modifies this
      ensures Walk(j, trail)
      ensures Consistent(State()) && State() == EntriesAlong(rules, old(State()), trail)
      decreases j, 0
    {
      hide AddSighting, Consistent;
      trail := [];
      ghost var start := State();
      NoItemYet(j.items);
      for index := 0 to |j.items|
        invariant BeganItems(j.items, index, trail)
        invariant State() == EntriesAlong(rules, start, trail)
      {
        ghost var inner := Visit(rules, j.items[index]);
        OneMoreItem(j.items, index, trail, inner);
        EntriesAlongConcat(rules, start, trail, inner);
        trail := trail + inner;
      }
      NoItemLeft(j.items, trail);
    }
  }

  /** The entries that some visiting order yields. */
  ghost predicate EntriesOfTree(rules: RuleTable, tree: Json, entries: seq<FieldEntry>) {
    exists trail :: Walk(tree, trail) && entries == EntriesOf(rules, trail)
  }

  method BuildFieldEntries(rules: RuleTable, tree: Json) returns (entries: seq<FieldEntry>)
    ensures EntriesOfTree(rules, tree, entries)
  {
    hide EntriesAlong;
    var collector := new FieldCollector();
    ghost var trail := collector.Visit(rules, tree);
    entries := collector.entries;
    assert entries == EntriesOf(rules, trail);
  }

  // ----- fields without geometry -----

  predicate Offends(e: FieldEntry) {
    !e.boxed && Supported(e.applied)
  }

  /** The offending keys in collection order, each once. */
  function MissingKeys(entries: seq<FieldEntry>): seq<string> {
    if entries == [] then []
    else
      var front, last := MissingKeys(entries[..|entries| - 1]), entries[|entries| - 1];
      if Offends(last) && last.key !in front then front + [last.key] else front
  }

  method FieldsMissingGeometry(entries: seq<FieldEntry>) returns (missing: seq<string>)
    ensures missing == MissingKeys(entries)
  {
    missing := [];
    var seen: set<string> := {};
    for index := 0 to |entries|
      invariant missing == MissingKeys(entries[..index])
      invariant forall key :: key in seen <==> key in missing
    {
      assert entries[..index + 1][..index] == entries[..index];
      var entry := entries[index];
      if entry.boxed || !Supported(entry.applied) || entry.key in seen {
        continue;
      }
      seen := seen + {entry.key};
      missing := missing + [entry.key];
    }
    assert entries[..|entries|] == entries;
  }

  /** First position of an offending key. */
  ghost predicate FirstOffence(entries: seq<FieldEntry>, i: int, key: string) {
    0 <= i < |entries| && entries[i].key == key && Offends(entries[i]) &&
    forall h | 0 <= h < i :: !(Offends(entries[h]) && entries[h].key == key)
  }

  /** Exactly the offending keys are listed, without repeats and in the order of their first offence. */
  lemma {:induction false} MissingKeysAreExact(entries: seq<FieldEntry>)
    ensures forall key ::
              key in MissingKeys(entries)
              <==> exists i :: 0 <= i < |entries| && Offends(entries[i]) && entries[i].key == key
    ensures forall a, b | 0 <= a < b < |MissingKeys(entries)| :: MissingKeys(entries)[a] != MissingKeys(entries)[b]
    ensures forall a, b, i, j | 0 <= a < b < |MissingKeys(entries)| && FirstOffence(entries, i, MissingKeys(entries)[a])
                                && FirstOffence(entries, j, MissingKeys(entries)[b]) :: i < j
  {
    if entries != [] {
      var front, last := entries[..|entries| - 1], entries[|entries| - 1];
      MissingKeysAreExact(front);
      assert forall h | 0 <= h < |front| :: front[h] == entries[h];
      var keys, all := MissingKeys(front), MissingKeys(entries);
      forall key
        ensures key in all <==> exists i :: 0 <= i < |entries| && Offends(entries[i]) && entries[i].key == key
      {
        if key in keys {
          var i :| 0 <= i < |front| && Offends(front[i]) && front[i].key == key;
          assert entries[i] == front[i];
        }
        if i :| 0 <= i < |entries| && Offends(entries[i]) && entries[i].key == key {
          if i < |front| {
            assert front[i] == entries[i];
          }
        }
      }
      forall a, b, i, j | 0 <= a < b < |all| && FirstOffence(entries, i, all[a]) && FirstOffence(entries, j, all[b])
        ensures i < j
      {
        assert all[a] in keys;
        FirstOffenceInFront(entries, i, all[a]);
        if b < |keys| {
          assert all[b] in keys;
          FirstOffenceInFront(entries, j, all[b]);
        } else {
          assert all[b] !in keys;
        }
      }
    }
  }

  lemma FirstOffenceInFront(entries: seq<FieldEntry>, i: int, key: string)
    requires entries != [] && FirstOffence(entries, i, key)
    requires exists h :: 0 <= h < |entries| - 1 && Offends(entries[h]) && entries[h].key == key
    ensures FirstOffence(entries[..|entries| - 1], i, key)
  {
    var h :| 0 <= h < |entries| - 1 && Offends(entries[h]) && entries[h].key == key;
    assert i <= h;
  }
}
