/** Products of reals behind a name, so that a proof about them stays linear. */
module RealMath {

  function Times(x: real, s: real): real {
    x * s
  }

  lemma DivMonotone(x: real, y: real, n: real)
    requires n > 0.0 && x <= y
    ensures x / n <= y / n
  {
  }

  lemma MulMonotone(x: real, y: real, s: real)
    requires s >= 0.0 && x <= y
    ensures x * s <= y * s
  {
  }

  lemma TimesMonotone(x: real, y: real, s: real)
    requires s >= 0.0 && x <= y
    ensures Times(x, s) <= Times(y, s)
  {
  }

  lemma TimesPositive(x: real, s: real)
    requires x > 0.0 && s > 0.0
    ensures Times(x, s) > 0.0
  {
  }

  lemma TimesUnits(s: real)
    ensures Times(0.0, s) == 0.0 && Times(1.0, s) == s
  {
  }

  lemma TimesAdds(x: real, y: real, s: real)
    ensures Times(x, s) + Times(y, s) == Times(x + y, s)
  {
  }

  /** Multiplication by a positive number is strictly monotone. */
  lemma TimesStrict(x: real, y: real, s: real)
    requires s > 0.0 && x < y
    ensures Times(x, s) < Times(y, s)
  {
    hide Times;
    TimesPositive(y - x, s);
    TimesAdds(x, y - x, s);
  }

  lemma Quotient(w: real, n: real)
    requires n > 0.0
    ensures Times(n, w / n) == w
    ensures w > 0.0 ==> w / n > 0.0
    ensures w >= 0.0 ==> w / n >= 0.0
  {
  }

  function CeilingNat(x: real): (k: nat)
    requires x > 0.0
    ensures x <= k as real < x + 1.0
  {
    -((-x).Floor)
  }

  /** Where a row of steps from below reaches a level. */
  lemma FirstStepFrom(gap: real, step: real) returns (k: nat)
    requires gap > 0.0 && step > 0.0
    ensures gap <= Times(k as real, step) < gap + step
  {
    var ratio := gap / step;
    Quotient(gap, step);
    assert Times(ratio, step) == gap;
    k := CeilingNat(ratio);
    hide Times;
    TimesMonotone(ratio, k as real, step);
    TimesStrict(k as real, ratio + 1.0, step);
    TimesAdds(ratio, 1.0, step);
    TimesUnits(step);
  }

  /** Some number of equal parts makes each part of w smaller than step. */
  lemma FineEnough(w: real, step: real) returns (n: nat)
    requires w >= 0.0 && step > 0.0
    ensures n > 0 && w / (n as real) < step
  {
    if w == 0.0 {
      n := 1;
    } else {
      var whole := FirstStepFrom(w, step);
      n := whole + 1;
      PartIsSmall(w, step, n as real, whole as real);
    }
  }

  lemma PartIsSmall(w: real, step: real, n: real, whole: real)
    requires step > 0.0 && 0.0 < n && w <= Times(whole, step) && whole < n
    ensures w / n < step
  {
    var part := w / n;
    assert Times(part, n) == w;
    assert Times(step, n) == Times(n, step);
    hide Times;
    TimesStrict(whole, n, step);
    if part >= step {
      TimesMonotone(step, part, n);
    }
  }
}
