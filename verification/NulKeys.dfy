/** Why the walk theorems ask for distinct signatures: a key that contains NUL can hide a missing box. */
module NulKeys {
  import opened Wrappers
  import opened Masking
  import opened JsonTree
  import opened PlainFields
  import opened Collectors
  import opened WalkAgreement

  /** Two entities with one signature share an entry, and the box of either counts for both. */
  lemma TheBoxCountsForBoth(rules: RuleTable, trail: seq<Members>, a: Members, b: Members)
    requires a in trail && forall m | m in trail :: m == a || m == b
    requires EntityOf(a).Some? && EntityOf(b).Some? && SignatureOf(a) == SignatureOf(b) && Located(a)
    ensures MissingKeys(EntriesOf(rules, trail)) == []
  {
    var entries := EntriesOf(rules, trail);
    MissingKeysAreExact(entries);
    hide EntriesOf, EntriesAlong, EntityOf, Located, SignatureOf, EntrySignature, AppliedRule, MissingKeys,
         SomeLocatedSighting;
    forall i | 0 <= i < |entries|
      ensures entries[i].boxed
    {
      var m := ReportBehindEntry(rules, trail, i);
      var j := EntryWithItsSignature(rules, trail, a);
      EntriesHaveDistinctSignatures(rules, trail, i, j);
    }
    if MissingKeys(entries) != [] {
      HasSomeKey(MissingKeys(entries));
    }
  }

  lemma HasSomeKey(keys: seq<string>)
    requires keys != []
    ensures exists key :: key in keys
  {
    assert keys[0] in keys;
  }

  lemma TheOtherIsNotLocated(rules: RuleTable, tree: Json, a: Members, b: Members)
    requires Objects(tree) == multiset{a, b} && EntityOf(b).Some? && EntityOf(a) != EntityOf(b) && !Located(b)
    requires UnderSupportedRule(rules, EntityOf(b).value)
    ensures Unlocated(rules, tree, EntityOf(b).value)
  {
    hide EntityOf, Located, UnderSupportedRule, Objects;
    var entity := EntityOf(b).value;
    assert b in Objects(tree) && Reports(b, entity);
    assert forall x :: x in Objects(tree) ==> x == a || x == b;
  }

  /** A field "name\0b" = "c" with a box, and a field "name" = "b\0c" without one. */
  function BoxedField(): Members {
    RectangleField("name\0b", "c", "{\"x\":0,\"y\":0,\"w\":5,\"h\":5}", Rectangle(0.0, 0.0, 5.0, 5.0))
  }

  function UnboxedField(): Members {
    map["key" := Str("name", None), "value" := Str("b\0c", None)]
  }

  function Answer(): Json {
    Arr([Obj(BoxedField()), Obj(UnboxedField())])
  }

  lemma BoxedFieldIsLocated()
    ensures EntityOf(BoxedField()) == Some(Entity("name\0b", "c")) && Located(BoxedField())
  {
    hide EntityOf, BoxesOf, RectangleField, Rectangle;
    RectangleFieldIsRead("name\0b", "c", "{\"x\":0,\"y\":0,\"w\":5,\"h\":5}", 0.0, 0.0, 5.0, 5.0);
  }

  lemma UnboxedFieldIsRead()
    ensures EntityOf(UnboxedField()) == Some(Entity("name", "b\0c"))
  {
    hide EntityOf;
    PlainFieldIsRead(UnboxedField(), "name", "b\0c");
  }

  lemma UnboxedFieldIsNotLocated()
    ensures !Located(UnboxedField())
  {
    hide EntityOf, FirstPresent;
    var m := UnboxedField();
    assert m.Keys == {"key", "value"};
    hide UnboxedField;
    NoneIsPresent(m, GEOMETRY_MEMBERS);
    assert GeometryCandidate(m) == Null;
  }

  lemma TheFields()
    ensures EntityOf(BoxedField()) == Some(Entity("name\0b", "c")) && Located(BoxedField())
    ensures EntityOf(UnboxedField()) == Some(Entity("name", "b\0c")) && !Located(UnboxedField())
    ensures EntityOf(BoxedField()) != EntityOf(UnboxedField())
    ensures SignatureOf(BoxedField()) == SignatureOf(UnboxedField())
  {
    hide EntityOf, Located, BoxedField, UnboxedField;
    BoxedFieldIsLocated();
    UnboxedFieldIsRead();
    UnboxedFieldIsNotLocated();
    assert Signature("name\0b", "c") == Signature("name", "b\0c");
    assert |"name\0b"| != |"name"|;
  }

  lemma AnswerObjects()
    ensures Objects(Answer()) == multiset{BoxedField(), UnboxedField()}
  {
    ObjectsOfALeaf(Obj(BoxedField()));
    ObjectsOfALeaf(Obj(UnboxedField()));
    hide BoxedField, UnboxedField, Objects;
    ObjectsOfTwo(Obj(BoxedField()), Obj(UnboxedField()));
  }

  /** With a NUL in a key a field without coordinates goes unreported, whatever the visiting order. */
  lemma ANulInAKeyHidesAMissingBox(rules: RuleTable, trail: seq<Members>)
    requires TrailOf(trail, Answer())
    requires UnderSupportedRule(rules, Entity("name", "b\0c"))
    ensures Unlocated(rules, Answer(), Entity("name", "b\0c"))
    ensures MissingKeys(EntriesOf(rules, trail)) == []
  {
    hide EntityOf, Located, BoxedField, UnboxedField, Answer, Unlocated, MissingKeys, EntriesOf, TrailOf,
         UnderSupportedRule, Signature;
    TheFields();
    AnswerObjects();
    TrailMembers(trail, Answer());
    TheBoxCountsForBoth(rules, trail, BoxedField(), UnboxedField());
    TheOtherIsNotLocated(rules, Answer(), BoxedField(), UnboxedField());
  }
}
