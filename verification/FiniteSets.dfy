/** How the size of a set follows one element. */
module FiniteSets {
  lemma OneMove<T>(a: set<T>, b: set<T>, x: T)
    requires a - {x} == b - {x}
    ensures |b| == |a| + (if x in b then 1 else 0) - (if x in a then 1 else 0)
  {
    assert a == (a - {x}) + if x in a then {x} else {};
    assert b == (b - {x}) + if x in b then {x} else {};
  }

  lemma OneLess<T>(todo: set<T>, x: T)
    requires x in todo
    ensures |todo - {x}| == |todo| - 1
  {
  }
}
