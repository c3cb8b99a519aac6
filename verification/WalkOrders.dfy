/** The orders in which a walk may visit the objects of an answer: an object before what its members hold, the members
    in any order, the items of a list from first to last. */
module WalkOrders {
  import opened JsonTree

  ghost predicate Walk(j: Json, trail: seq<Members>)
    decreases j, 1
  {
    match j
    case Obj(members) => trail != [] && trail[0] == members && WalkMembers(j, members.Keys, trail[1..])
    case Arr(items) => WalkItems(items, trail)
    case _ => trail == []
  }

  ghost predicate WalkMembers(j: Json, keys: set<string>, trail: seq<Members>)
    requires j.Obj? && keys <= j.members.Keys
    decreases j, 0, keys
  {
    if keys == {} then trail == []
    else exists k, a, b :: k in keys && trail == a + b && Walk(j.members[k], a) && WalkMembers(j, keys - {k}, b)
  }

  ghost predicate WalkItems(items: seq<Json>, trail: seq<Members>)
    decreases items, 0
  {
    if items == [] then trail == []
    else exists a, b :: trail == a + b && Walk(items[0], a) && WalkItems(items[1..], b)
  }

  // ----- a walk visits every object once -----

  lemma {:induction false} WalkVisitsEachOnce(j: Json, trail: seq<Members>)
    requires Walk(j, trail)
    ensures multiset(trail) == Objects(j)
    decreases j, 1
  {
    match j
    case Obj(members) =>
      WalkOfMembersVisitsEachOnce(j, members.Keys, trail[1..]);
      assert trail == [members] + trail[1..];
    case Arr(items) => WalkOfItemsVisitsEachOnce(items, trail);
    case _ =>
  }

  lemma {:induction false} WalkOfMembersVisitsEachOnce(j: Json, keys: set<string>, trail: seq<Members>)
    requires j.Obj? && keys <= j.members.Keys && WalkMembers(j, keys, trail)
    ensures multiset(trail) == ObjectsOfMembers(j, keys)
    decreases j, 0, keys
  {
    if keys != {} {
      var k, a, b :| k in keys && trail == a + b && Walk(j.members[k], a) && WalkMembers(j, keys - {k}, b);
      WalkVisitsEachOnce(j.members[k], a);
      WalkOfMembersVisitsEachOnce(j, keys - {k}, b);
      AnyMemberFirst(j, keys, k);
    }
  }

  lemma {:induction false} WalkOfItemsVisitsEachOnce(items: seq<Json>, trail: seq<Members>)
    requires WalkItems(items, trail)
    ensures multiset(trail) == ObjectsOfItems(items)
    decreases items, 0
  {
    if items != [] {
      var a, b :| trail == a + b && Walk(items[0], a) && WalkItems(items[1..], b);
      WalkVisitsEachOnce(items[0], a);
      WalkOfItemsVisitsEachOnce(items[1..], b);
    }
  }

  // ----- a walk in progress -----

  /** Whatever walk of the remaining members follows, the whole is a walk of all members. */
  ghost predicate BeganMembers(j: Json, keys: set<string>, trail: seq<Members>)
    requires j.Obj? && keys <= j.members.Keys
  {
    forall rest | WalkMembers(j, keys, rest) :: WalkMembers(j, j.members.Keys, trail + rest)
  }

  lemma NoMemberYet(j: Json)
    requires j.Obj?
    ensures BeganMembers(j, j.members.Keys, [])
  {
    forall rest | WalkMembers(j, j.members.Keys, rest)
      ensures WalkMembers(j, j.members.Keys, [] + rest)
    {
      assert [] + rest == rest;
    }
  }

  lemma OneMoreMember(j: Json, keys: set<string>, trail: seq<Members>, k: string, inner: seq<Members>)
    requires j.Obj? && keys <= j.members.Keys && k in keys
    requires BeganMembers(j, keys, trail) && Walk(j.members[k], inner)
    ensures BeganMembers(j, keys - {k}, trail + inner)
  {
    hide Walk;
    forall rest | WalkMembers(j, keys - {k}, rest)
      ensures WalkMembers(j, j.members.Keys, trail + inner + rest)
    {
      assert WalkMembers(j, keys, inner + rest);
      assert trail + inner + rest == trail + (inner + rest);
    }
  }

  lemma NoMemberLeft(j: Json, trail: seq<Members>)
    requires j.Obj? && BeganMembers(j, {}, trail)
    ensures Walk(j, [j.members] + trail)
  {
    assert WalkMembers(j, {}, []);
    assert trail + [] == trail;
    assert ([j.members] + trail)[1..] == trail;
  }

  ghost predicate BeganItems(items: seq<Json>, index: nat, trail: seq<Members>)
    requires index <= |items|
  {
    forall rest | WalkItems(items[index..], rest) :: WalkItems(items, trail + rest)
  }

  lemma NoItemYet(items: seq<Json>)
    ensures BeganItems(items, 0, [])
  {
    assert items[0..] == items;
    forall rest | WalkItems(items[0..], rest)
      ensures WalkItems(items, [] + rest)
    {
      assert [] + rest == rest;
    }
  }

  lemma OneMoreItem(items: seq<Json>, index: nat, trail: seq<Members>, inner: seq<Members>)
    requires index < |items| && BeganItems(items, index, trail) && Walk(items[index], inner)
    ensures BeganItems(items, index + 1, trail + inner)
  {
    hide Walk;
    var now, later := items[index..], items[index + 1..];
    assert now[0] == items[index] && now[1..] == later;
    forall rest | WalkItems(later, rest)
      ensures WalkItems(items, trail + inner + rest)
    {
      assert WalkItems(now, inner + rest);
      assert trail + inner + rest == trail + (inner + rest);
    }
  }

  lemma NoItemLeft(items: seq<Json>, trail: seq<Members>)
    requires BeganItems(items, |items|, trail)
    ensures Walk(Arr(items), trail)
  {
    assert items[|items|..] == [];
    assert WalkItems(items[|items|..], []);
    assert trail + [] == trail;
  }
}
